# A verified model of mitmwall's pattern compiler, firewall policy and lifecycle

mitmwall forces the web and DNS traffic of a host through a local filtering proxy. This
project models the three parts of it where a mistake is silent, and proves what they keep.

* **Pathname patterns** (`PatternTokens`, `PatternParser`, `PatternPrinter`, `Languages`,
  `RegexText`, `PatternCompiler`, `PatternCompilation`, `PatternFlatten`, `ParserLaws`,
  `PatternLaws`). The parser is a class with one shared cursor; the emitting loop deletes the slash it has already written when the next
  placeholder takes it over; flattening appends to shared mutable lists. Tokens are given a
  language (a set of strings), the emitted text is given its own reader and language, and the two
  are proved equal for every pattern.
* **Firewall** (`Rules`, `Firewall`, `HookRules`, `HookPrograms`, `Unmanaged`, `PolicyHistory`,
  `Packets`, `PolicyLaws`).
  `Iptables` holds the chains of one address family and changes them one command at a time. The
  programs of the hook are methods over it. `PolicyHistory` gives the tables after a completed
  start in closed form and derives statements about whole histories of starts and stops;
  `Packets` evaluates the chains packet by packet, with jumps, next to rules mitmwall did not
  install.
* **Lifecycle** (`Runs`, `ForwardingRuns`, `Host`, `ConcurrentStarts`, `ResolverRuns`,
  `Resolver`). The forwarding snapshot and the resolver snapshot are each a system of guarded
  steps. The classes `Host` and `Resolver` carry out the actual control flow, with commands that may
  fail before or after their effect, a ghost trace of every state they pass and a ghost count of
  failed commands, so that their contracts say both what a failure may leave and that nothing fails
  without a cause. Their methods are proved to take only steps of the system. The results about runs
  are stated for any number of processes, each of which may die anywhere (`Runs.LivesKeep`).

A firewall program that breaks off is treated the same way: `Iptables` records the chains after
every command, each program is proved to keep all that is not mitmwall's in every state it passes
(`HookPrograms.Careful`), and a failing action of `Host` continues from any one of those states.

Two uses of one idea keep the state-changing code and the mathematics apart: each method's
postcondition equates the new chains, file or cursor with a function of the old ones, and the lemmas
are about those functions. What those functions mean is fixed once more from outside, in `ParserLaws`,
`PatternLaws` and `PolicyLaws`, character by character and rule by rule, with the characters, ports
and names written out.

## What the proofs brought to light

* `PatternCompilation.FastPathAcceptsMore`: a pattern without syntax characters is compiled as a
  literal even when it contains `[`, `]`, `+` or `?`, which the parser refuses. Everywhere else the
  two routes agree (`FastPathRefinesParser` says exactly where).
* `PatternFlatten.FlattenDisagrees`: when an optional parameter directly follows an optional group
  ending in a slash, flattening lets it take over the group's slash and the grouped pattern does
  not, so `/a/` is matched by one and not by the other.
* `PolicyHistory.HistoryExactly`: a start is independent of an earlier one exactly when every time
  synchronisation user found by the earlier one is still found. Otherwise the untagged DNS bypasses of
  the vanished users stay in nat OUTPUT, and stop does not remove them either (`VanishedStays`).
* `Host.Host.RestoreForwarding`, `Host.Host.Stop`: start saves whatever integers the sysctls hold,
  but the saved file is only read back when all three are 0 or 1. With any other
  integer every later stop is refused and changes nothing of forwarding or the firewall (`Host.StartThenStop` has the exact
  condition, `Host.TwoIsRefused` a witness).
* `Host.Host.Start`, `Host.StartTwice`, `ForwardingRuns.RepeatedStartGap`: putting the forwarding
  guard first is a deletion and an insertion. No moment of a start is unprotected while mitmwall has
  not yet made a family forward, even when the start fails and is rolled back. On every repeated
  start that succeeds on a host that does not forward there is a moment at which transit that
  mitmwall opened is not guarded, and a process that dies there leaves it so.
* `ConcurrentStarts.SecondStartOpens`: for the same reason a second start can take away the guard a
  finished one relies on. The snapshot, in contrast, is agreed in every interleaving.
* `ResolverRuns.InstallExactly`, `ReplaceExactly`, `RewriteInWindowIsLost`: resolv.conf is not
  looked at again between reading it and replacing it. A rewrite by another manager in that moment is
  lost. Whenever the last rewrite fell outside those moments the snapshot is right again.

## Model

| member | source | states |
|---|---|---|
| PatternParser.Parser.ConsumeModifier | src/addon/pathname_pattern.py:104-114 | The modifier at the cursor and the cursor after it, for every position including the end |
| PatternParser.Parser.ConsumeName | src/addon/pathname_pattern.py:116-145 | The identifier or quoted name at the cursor, empty when there is neither, or the position of the unterminated quote or dangling escape |
| PatternParser.Parser.ConsumeRegex | src/addon/pathname_pattern.py:147-183 | The source up to the parenthesis that closes the scan, with escapes, classes and nesting, or the error that stops it |
| PatternParser.Parser.ConsumeUntil | src/addon/pathname_pattern.py:185-261 | The shared-cursor loop, its recursion into a group and all its errors produce exactly the tokens of the index-based grammar; it ends on every input |
| PatternParser.ParsePattern | src/addon/pathname_pattern.py:87-263 | Every input ends in a token list or one error, as the grammar says |
| ParserLaws.NamedParameter | src/addon/pathname_pattern.py:64-84 | After a colon the name is the longest run of identifier characters, digits and joiners included; a modifier follows; the text around stays text |
| ParserLaws.NamelessParameter | src/addon/pathname_pattern.py:220-228 | A colon followed by anything that cannot begin a name is an error at that place |
| ParserLaws.EscapedCharacter | src/addon/pathname_pattern.py:213-218 | A character after a backslash is text, whatever it is |
| ParserLaws.TrailingEscape | src/addon/pathname_pattern.py:213-218 | A backslash at the end is an error there |
| ParserLaws.RefusedCharacter | src/addon/pathname_pattern.py:252-255 | Outside groups and regular expressions exactly `}`, `[`, `]`, `+` and `?` are refused, with their position |
| ParserLaws.WildcardReads | src/addon/pathname_pattern.py:230-234 | A star is a wildcard with the modifier that follows it |
| ParserLaws.GroupOfText | src/addon/pathname_pattern.py:244-250 | A group holds the text between its braces and has the modifier that follows |
| ParserLaws.GroupRefusals | src/addon/pathname_pattern.py:244-258 | Nested and unclosed groups are errors at the inner brace and at the end |
| ParserLaws.SourceShapes | src/addon/pathname_pattern.py:147-183 | What the scan takes as one source: text without brackets, a class whatever parentheses it holds, an escaped character, a parenthesised source, two sources in a row |
| ParserLaws.SourceOfRegex | src/addon/pathname_pattern.py:236-242 | An unnamed regular expression ends exactly where its source does |
| ParserLaws.SourceOfParameter | src/addon/pathname_pattern.py:220-228 | So does that of a parameter |
| ParserLaws.OpenRegex | src/addon/pathname_pattern.py:147-183 | Without its closing parenthesis it is an error at the opening one |
| PatternPrinter.ParseWellFormed | src/addon/pathname_pattern.py:185-263 | Every accepted pattern has maximal non-empty texts, named parameters, scanner-balanced sources, no nested groups and no ambiguous neighbours |
| PatternPrinter.PrintThenParse | src/addon/pathname_pattern.py:87-263 | Printing a well-formed stream with quoted names and escaped specials and parsing it again returns the stream |
| PatternPrinter.RoundTripExactly | src/addon/pathname_pattern.py:87-263 | Parsing inverts printing if and only if the stream is well-formed, so well-formedness is exactly the image of the parser |
| PatternPrinter.CanonicalForm | src/addon/pathname_pattern.py:87-263 | The canonical print of any accepted pattern parses to the same tokens |
| PatternCompiler.EscapeSlash | src/addon/pathname_pattern.py:325-340 | Dropping the last emitted character after text that ends in a slash drops exactly that slash |
| PatternCompiler.SourceSnoc | src/addon/pathname_pattern.py:320-353 | Appending a token to any stream: when it captures, the text so far ends in a slash and only that slash moves into the quantified group; otherwise nothing already emitted changes |
| PatternCompiler.DenotesModified | src/addon/pathname_pattern.py:299-307 | A wrapped body with a prefix reads back unambiguously and denotes the allowed repetitions of prefix followed by body |
| PatternCompiler.TokensToRegexSource | src/addon/pathname_pattern.py:310-353 | The loop that deletes from its own output emits the text of the forward-looking specification |
| PatternCompiler.DenotesEscape | src/addon/pathname_pattern.py:325 | Escaped text reads back as exactly that text |
| PatternCompiler.SourceDenotes | src/addon/pathname_pattern.py:310-353 | For every token list with scanner-balanced sources the emitted text reads back unambiguously, never begins with a quantifier, and fully matches exactly the tokens' language |
| PatternLaws.SlashTaken | src/addon/pathname_pattern.py:332-343 | Text ending in a slash, then a parameter, wildcard or regular expression with any modifier: the slash is repeated with it |
| PatternLaws.SlashKept | src/addon/pathname_pattern.py:332-343 | In every other case the first token keeps to itself: without a modifier, after other text, after a group or placeholder, inside a group |
| PatternLaws.ParamTakesSlash | src/addon/pathname_pattern.py:335-345 | The first, for parameters, down to the words matched |
| PatternLaws.RepetitionLaw | src/addon/pathname_pattern.py:299-307 | A repeated word is a chain of exactly one, at most one, at least one or any number of words |
| PatternLaws.ParamLaw | src/addon/pathname_pattern.py:343-344 | A parameter matches a non-empty segment, also with an empty regular expression |
| PatternLaws.WildcardLaw | src/addon/pathname_pattern.py:345-346 | A wildcard matches anything within a line |
| PatternLaws.CustomLaw | src/addon/pathname_pattern.py:343-348 | A custom source matches what that source matches, named or not |
| PatternLaws.GroupLaw | src/addon/pathname_pattern.py:328-332 | A group matches what its tokens match without the slash rule |
| PatternLaws.ModifiedParameterPattern | src/addon/pathname_pattern.py:383-400 | From the written pattern to the words: `v/:name` with a modifier matches v followed by as many segments, each with its slash, as the modifier allows |
| RegexText.ReadAppend | src/addon/pathname_pattern.py:323-352 | Emitted pieces put side by side read as their readings side by side, because no piece begins with a quantifier |
| PatternCompilation.Compile | src/addon/pathname_pattern.py:383-400 | The choice between literal fast path and parsed route, and the three refusals: full URLs, the parser's errors and a text the regular-expression compiler does not take |
| PatternCompilation.CompiledMeaning | src/addon/pathname_pattern.py:383-400 | Exactly when each refusal happens; whatever text is handed to the regular-expression compiler fully matches exactly the pattern's language |
| PatternCompilation.FastPathRefinesParser | src/addon/pathname_pattern.py:252-261 | On patterns without syntax characters the parser accepts if and only if none of `[]+?` occurs, and then both routes emit the same source |
| PatternCompilation.FastPathAcceptsMore | src/addon/pathname_pattern.py:366-395 | A concrete pattern that one route hands on and the other refuses |
| PatternLaws.LiteralExactly | src/addon/pathname_pattern.py:366-371 | Exactly seven characters send a pattern to the parser; without them the escaped pattern is compiled |
| PatternFlatten.AppendInPlace | src/addon/pathname_pattern.py:279-282 | Appending in place reaches every sequence exactly once, given that none is shared |
| PatternFlatten.Combine | src/addon/pathname_pattern.py:288-292 | Fresh, pairwise distinct lists holding every combination in order |
| PatternFlatten.ProductOrder | src/addon/pathname_pattern.py:288-292 | All combinations of one sequence, in the group's order, come before those of the next |
| PatternFlatten.Flatten | src/addon/pathname_pattern.py:266-296 | The mutable expansion equals the functional one, including both errors, and no two result lists are the same object |
| PatternFlatten.FlattenBound | src/addon/pathname_pattern.py:284-296 | On every parser result with k optional groups, flattening succeeds if and only if no group repeats and k is at most 8, and yields 2^k sequences; the error is about repetition if and only if a repeating group is reached before the ninth optional one |
| PatternFlatten.FlattenAgrees | src/addon/pathname_pattern.py:266-363 | When groups do not repeat and hold no modified placeholder, and none follows a group after which some flat sequence ends in a slash, the flat sequences together match exactly what the grouped tokens match |
| PatternFlatten.FlattenDisagrees | src/addon/pathname_pattern.py:266-363 | A concrete token list with such a junction, and a path matched by the grouped form and by no flat sequence |
| Firewall.Iptables.RemoveAll | src/systemd/iptables.py:105-109 | The check-and-delete loop ends and leaves exactly the other rules in their order; every state passed has them all |
| Firewall.Iptables.EnsureFirst | src/systemd/iptables.py:111-115 | The rule followed by exactly the other rules in their order; every state passed has them all |
| Firewall.Iptables.RemoveByComment | src/systemd/iptables.py:156-169 | Listing and deleting by line number, over and over, ends and leaves exactly the rules without the token; an absent chain stays absent; every state passed has all of them |
| Rules.EnsureEachFirstForm | src/systemd/iptables.py:111-115 | Moving rules to the head one after the other leaves them latest first without duplicates, then everything else in its original order |
| Rules.RecentDistinct | src/systemd/iptables.py:111-115 | The moved rules are pairwise different |
| HookPrograms.OwnerExclusionArgs | src/systemd/hook.py:379-387 | One negated owner match for each user, in order |
| HookPrograms.AddRedirectRule | src/systemd/hook.py:390-432 | The tagged web redirect, with all exclusions, is the single copy at the head |
| HookPrograms.AddDnsRedirectRule | src/systemd/hook.py:478-510 | The tagged DNS redirect, with all exclusions, is the single copy at the head |
| HookPrograms.AddNtpDnsBypassRule | src/systemd/hook.py:633-668 | Each installed time synchronisation user's bypass is moved to the head in turn |
| HookPrograms.RemoveNtpDnsBypassRule | src/systemd/hook.py:671-698 | Exactly those users' bypasses go |
| HookPrograms.AddNtpFilterRules | src/systemd/hook.py:556-630 | Three accepting rules for each user, appended in order |
| HookPrograms.AddOutputFilter | src/systemd/hook.py:701-859 | The managed chain is rebuilt from nothing with a single final DROP, and the jump to it is the single copy at the head of filter OUTPUT |
| HookPrograms.RemoveOutputFilter | src/systemd/hook.py:862-881 | Every jump goes and the managed chain stays, empty; without the chain nothing happens |
| HookPrograms.FindDropLineNumber | src/systemd/hook.py:1065-1076 | The number of the first DROP line, or none when there is no such line |
| HookPrograms.AddRule | src/systemd/hook.py:1079-1116 | The custom bypass lands directly before the first DROP, at the end without one, nowhere without the chain |
| HookPrograms.AddCustomRules | src/systemd/hook.py:1147-1165 | One pass over the configuration leaves in each family what that family's own rules alone would |
| HookPrograms.ClearCustomRules | src/systemd/hook.py:1196-1203 | Every rule tagged as custom goes from both chains and nothing else |
| HookPrograms.ClearManagedRedirectRules | src/systemd/hook.py:1179-1185 | Every tagged redirect goes, whatever users it was built for |
| HookPrograms.LegacyRedirectRuleArgs | src/systemd/migrations.py:27-52 | The untagged signature of an older release |
| HookPrograms.ClearLegacyRedirectRules | src/systemd/migrations.py:66-101 | The nested loops delete every copy of exactly the twelve historical signatures, and in every state passed all unmanaged rules are as before |
| HookPrograms.AddPolicy | src/systemd/hook.py:918-938 | Interleaving the two families program by program leaves in each what the whole sequence would leave alone; in every state passed all unmanaged rules are as before, and the jump never precedes its chain |
| HookPrograms.RemovePolicy | src/systemd/hook.py:941-956 | The same for removal; the exact signatures removed last are historical ones and already gone |
| PolicyHistory.InsertBeforeFinal | src/systemd/hook.py:1079-1116 | In a chain that accepts and then drops, the insertion falls directly before the single final DROP |
| PolicyHistory.CustomsForm | src/systemd/hook.py:1147-1165 | Across the shifting line numbers the custom rules end up in configuration order before the DROP, and in nat OUTPUT latest first with duplicates collapsed |
| PolicyHistory.NatForm | src/systemd/hook.py:390-432 | nat OUTPUT is custom bypasses, then time synchronisation bypasses, then web 443 and 80 and DNS over TCP and UDP, then the unmanaged rules in their order |
| PolicyHistory.InstalledIsForm | src/systemd/hook.py:905-938 | All four chains of a family after the whole program, in closed form, for any earlier content |
| PolicyLaws.NatLaw | src/systemd/hook.py:905-938 | nat OUTPUT after a start with every rule written out: which custom and time bypasses, each once, which four redirects, and which other rules in which order |
| PolicyLaws.RecentOrder | src/systemd/hook.py:1147-1165 | Of two custom bypasses the one standing first was configured last |
| PolicyLaws.CustomsInOrder | src/systemd/hook.py:1147-1165 | In the managed chain custom bypasses keep the order of the configuration |
| PolicyLaws.FilterLaw | src/systemd/hook.py:701-859 | The jump is first in filter OUTPUT, the managed chain accepts and ends with the custom bypasses and one DROP, and FORWARD begins with the guard where there is one |
| PolicyLaws.StartLaw | src/systemd/hook.py:355-376 | After a start the sysctls are 1, 1 and 0, the snapshot is what was to be restored, and a guard stands exactly where forwarding was 0 |
| PolicyHistory.InstalledSame | src/systemd/hook.py:905-938 | A start depends on nothing but the unmanaged rules: chains that agree in those are equal after it |
| PolicyHistory.InstalledKeeps | src/systemd/hook.py:905-938 | A completed start changes no unmanaged rule of any chain |
| PolicyHistory.MigrationExact | src/systemd/migrations.py:66-101 | Migration removes exactly the historical signatures, keeps all else in order, never removes a tagged rule, and does nothing the second time |
| PolicyLaws.MigrationLaw | src/systemd/migrations.py:66-101 | Migration deletes exactly twelve redirects, written out with their users, ports and targets |
| PolicyHistory.LegacyDistinct | src/systemd/migrations.py:66-101 | The twelve signatures are twelve different rules |
| PolicyHistory.StartForgetsStart | src/systemd/hook.py:905-938 | Both families, sysctls and snapshot after a start do not depend on a start before it, whatever its bypass users and custom rules; so starting twice is starting once |
| PolicyHistory.HistoryForgotten | src/systemd/hook.py:1214-1259 | After any plan of starts and stops carried out on the host, each completed or failing at any command, a completed start leaves exactly what it would have left as the first one |
| PolicyHistory.StartResumes | src/systemd/hook.py:905-938 | Worlds that agree in the values to restore and in the unmanaged rules are equal after a start |
| PolicyHistory.StaleHead | src/systemd/hook.py:633-668 | What a later start leaves of an earlier head is empty if and only if no time synchronisation user vanished |
| PolicyHistory.HistoryExactly | src/systemd/hook.py:633-668 | From a clean world a whole start, migration included, is independent of the earlier one if and only if every user that one found is still found |
| PolicyHistory.VanishedStays | src/systemd/hook.py:671-698 | A stop neither removes nor adds the bypass, over UDP or TCP, of a user that is no longer found |
| PolicyHistory.StopUndoesHistory | src/systemd/hook.py:1214-1259 | From clean tables, after any such plan, a completed stop leaves all three sysctls and both families as they were, but for an empty managed chain |
| PolicyHistory.StopUndoes | src/systemd/hook.py:941-956 | A completed stop takes every world that agrees with a clean one in the unmanaged rules back to the clean one |
| PolicyLaws.StopLaw | src/systemd/hook.py:941-956 | On any tables, a stop deletes from nat OUTPUT exactly the rules of every release, and empties and detaches the managed chain |
| PolicyHistory.LatestChoiceReturns | src/systemd/hook.py:315-376 | What the administrator set while nothing was saved is what a completed stop brings back after any plan of starts and stops |
| Packets.NatHeadDecides | src/systemd/hook.py:390-432 | For every packet, what first-match evaluation of the managed head decides |
| Packets.ManagedMatches | src/systemd/hook.py:701-859 | Some accepting rule of the managed chain matches a packet if and only if it is one of the listed exceptions |
| Packets.FailClosed | src/systemd/hook.py:701-859 | Whatever other rules and chain policies exist, a packet passes filter OUTPUT if and only if it is one of the exceptions |
| Packets.NatDecides | src/systemd/hook.py:905-938 | The translation of every packet of a new flow; unmanaged rules only see what no managed rule decides |
| Packets.WholePolicy | src/systemd/hook.py:905-938 | Captured web and DNS traffic is redirected and accepted, configured bypasses are neither redirected nor dropped for any user, and everything else passes if and only if it is an exception |
| PolicyLaws.PolicyLaw | src/systemd/hook.py:701-859 | The whole policy port by port: who is sent to 58080 and 58053, what passes untouched, and exactly what may leave |
| Packets.NoEgress | src/systemd/hook.py:701-859 | What leaves the machine is a reply, from a privileged account, time synchronisation, ICMPv6 or a configured bypass |
| Packets.TransitDropped | src/systemd/hook.py:249-287 | While transit that mitmwall opened is protected, every packet to be forwarded is dropped, whatever other rules FORWARD holds |
| ForwardingRuns.SnapshotExact | src/systemd/hook.py:228-246 | In every state of any number of processes, each dying anywhere, either nothing is saved and the sysctls are the administrator's, or exactly the administrator's values are saved |
| ForwardingRuns.SnapshotWriteOnce | src/systemd/hook.py:142-169 | While a snapshot exists its value never changes |
| ForwardingRuns.TransitGuarded | src/systemd/hook.py:264-376 | In every such state, a family mitmwall made forward has its DROP guard as the first rule of FORWARD, except between the deletion and the insertion that put it there |
| ForwardingRuns.GuardsTidy | src/systemd/hook.py:304-352 | In every such state, a guard is there only while a snapshot tells that its family was not forwarding, so none outlives the snapshot |
| ForwardingRuns.RepeatedStartGap | src/systemd/hook.py:264-287 | A concrete start on a host that does not forward, protected throughout, and the step of a second start that leaves transit unguarded |
| Host.Host.WriteForwardingState | src/systemd/hook.py:142-169 | Create-only: an existing snapshot is never replaced and is reported, and any other failure leaves either none or the complete one |
| Host.Host.ReadForwardingState | src/systemd/hook.py:172-225 | What is read back is the snapshot and holds only zeros and ones |
| Host.ReadableValues | src/systemd/hook.py:206-219 | All eight combinations of zeros and ones can be read back and nothing else |
| Host.Host.LoadOrCreateForwardingState | src/systemd/hook.py:228-246 | The snapshot to run with is the existing one, or the present sysctls saved before any change |
| Host.Host.AddForwardingGuard | src/systemd/iptables.py:111-115 | The guard ends as the first rule; of the states passed, the one between deletion and insertion is unprotected if and only if mitmwall had already made the family forward |
| Host.Host.AddForwardingGuards | src/systemd/hook.py:264-287 | A guard at the head of FORWARD in exactly the families whose forwarding was 0, with the same condition for both |
| Host.Host.BreakOff | src/systemd/iptables.py:44-56 | A program that breaks off leaves each family as it was or in a state it passed, with every unmanaged rule and FORWARD as before |
| Host.Host.RemoveForwardingGuards | src/systemd/hook.py:304-312 | Every copy goes from exactly those families, only once the sysctls are back |
| Host.Host.WriteSaved | src/systemd/hook.py:329-345 | All three values are written even when a write fails: no more of them are left than writes have failed |
| Host.Host.GuardAndEnable | src/systemd/hook.py:360-365 | Guards come strictly before the writes, which the protocol refuses otherwise |
| Host.Host.EnableForwarding | src/systemd/hook.py:355-376 | Success means saved, guarded and enabled; it fails only when a command failed or the snapshot cannot be read, and then either everything is restored, or restoring failed as well, or nothing had been changed; the values to restore and all unmanaged rules are as before |
| Host.Host.RestoreForwarding | src/systemd/hook.py:315-352 | Completion restores all three values, then removes guards and snapshot; without a failed command it completes; a snapshot outside 0 and 1 is refused with nothing changed; no state passed gives up protection, wherever it fails |
| Host.Host.AddRules | src/systemd/hook.py:905-938 | A completed call leaves both families and the sysctls in the installed state; a call that breaks off anywhere loses no value to restore and no unmanaged rule |
| Host.Host.ClearRules | src/systemd/hook.py:941-956 | Both families end cleared, without a step of the forwarding protocol |
| Host.Host.Start | src/systemd/hook.py:1228-1248 | It succeeds unless a command fails or the snapshot cannot be read; success is migration and installation; whatever the outcome, every state passed is protected unless mitmwall had already made a family forward, and on success exactly then; a rolled back start leaves no snapshot and the sysctls as they were; it is stuck only when restoring failed as well; nothing unmanaged is lost in any case |
| Host.Host.Stop | src/systemd/hook.py:1249-1259 | A completed stop restores the administrator's three values and clears the rules; it fails only for a cause and then loses nothing unmanaged; with an unreadable snapshot it changes nothing, so the rules stay, as they do whenever restoring failed; no state passed gives up protection |
| Host.StartTwice | src/systemd/hook.py:264-287 | On a host that does not forward, every state of the first start is protected and some state of a second one is not |
| Host.StartThenStop | src/systemd/hook.py:206-219 | Without a failing command, a start from no snapshot succeeds, and the stop after it succeeds if and only if the sysctls were zeros and ones |
| Host.TwoIsRefused | src/systemd/hook.py:206-219 | With IPv4 forwarding set to 2, the snapshot a start takes cannot be read back |
| ConcurrentStarts.StartsAgree | src/systemd/hook.py:228-246 | In every interleaving of any number of starts at most one snapshot is linked, its values were read before any write, and every start past it uses it; what is enabled is guarded or some start is just moving its guard |
| ConcurrentStarts.FinishedStart | src/systemd/hook.py:360-365 | When some start has finished, forwarding is enabled and one snapshot exists, holding the administrator's values; each guard is in place unless some other start stands between deleting and inserting it |
| ConcurrentStarts.StartFinishes | src/systemd/hook.py:228-246 | No start waits for another: whatever the others have done, thirteen steps of its own finish it |
| ConcurrentStarts.LoserContinues | src/systemd/hook.py:241-246 | The loser of the link rereads and goes on with the snapshot that was linked |
| ConcurrentStarts.SecondStartOpens | src/systemd/iptables.py:111-115 | A run without failures in which the first start has finished, IPv4 forwards, and a second start has taken out its guard |
| Resolver.UsesExternalNameserver | src/systemd/resolv_conf.py:118-146 | True if and only if some nameserver line has anything but a loopback address; unreadable text has none |
| Resolver.NameserverLine | src/systemd/resolv_conf.py:133-145 | A nameserver line counts unless its address, without any scope, is a loopback address; what is no address counts; other lines never do |
| Resolver.ExternalAnywhere | src/systemd/resolv_conf.py:128-146 | One such line is enough wherever it stands, and unreadable text has none |
| Resolver.Resolver.MigrateLegacyResolverState | src/systemd/migrations.py:104-140 | The snapshot that would be restored never changes, at any failure, and after completion it is in the current place only |
| Resolver.Resolver.SaveResolverState | src/systemd/resolv_conf.py:306-334 | An existing snapshot is kept; otherwise, undisturbed, it is what was at resolv.conf |
| Resolver.Resolver.SwitchToStub | src/systemd/resolv_conf.py:370-374 | After migration the snapshot is always renewed: undisturbed, whenever resolv.conf changed it is the stub and the snapshot is what it replaced, even if a later operation failed |
| Resolver.Resolver.ConfigureSystemResolver | src/systemd/resolv_conf.py:337-375 | When a switch is needed and possible, completion means the stub is up and the previous content saved; when not needed nothing changes; when not possible an error and no change of snapshots; otherwise it fails only for a cause |
| Resolver.Resolver.RestoreSystemResolver | src/systemd/resolv_conf.py:378-411 | It completes unless an operation fails; undisturbed, it puts back exactly what was saved, owner included, keeps another manager's later content, and in both cases leaves no snapshot |
| Resolver.Resolver.Start | src/systemd/hook.py:1228-1248 | Undisturbed, a successful start has switched exactly when needed, and a rolled back one leaves content and owner of resolv.conf as before, wherever it failed; it fails only for a cause |
| Resolver.Resolver.Stop | src/systemd/hook.py:1249-1259 | A completed stop from any reachable state leaves what another manager last put there, unless that fell into a window, and no snapshot; it completes unless an operation fails |
| ResolverRuns.StepKeeps | src/systemd/resolv_conf.py:306-411 | Every file step and every foreign rewrite keeps: unless the last rewrite fell into a window, the stub is only up while the snapshot is the last foreign content |
| ResolverRuns.SnapshotIsLastForeign | src/systemd/resolv_conf.py:306-411 | The same in every state of any number of processes, each dying anywhere, whenever the last foreign rewrite fell outside the windows |
| ResolverRuns.InstallExactly | src/systemd/resolv_conf.py:373-374 | Putting the stub up is safe if and only if resolv.conf is still what was saved |
| ResolverRuns.ReplaceExactly | src/systemd/resolv_conf.py:395-408 | Putting the saved content back is safe if and only if resolv.conf is still the stub or already that content |
| ResolverRuns.RewriteInWindowIsLost | src/systemd/resolv_conf.py:373-374 | For any two contents, a run in which the newer one is lost and stop brings back the older |

## Left out

- Host.Host.RemoveGuardCopies: the trace records the deletion of several copies of a guard once, when it is complete or has broken off.
- Host.Host.BreakOff: the two families break off independently, each at any state it passed; the hook, which works on both in turn, reaches only some of these pairs.
- Host.Host.Start: the resolver part of the same action is Resolver.Resolver.Start; the two share no state.
- ResolverRuns.SnapshotIsLastForeign: promises nothing while the last foreign rewrite is one inside a window, because the property is false there; InstallExactly and ReplaceExactly give the exact condition for each of the two replacing steps.
- Resolver.Resolver.Stop: compares links by target; the owner of a link is restored, and stated, only for an undisturbed RestoreSystemResolver.
- Resolver.Resolver.SaveResolverState: reading kind, owner and content of resolv.conf is one step.
- PatternPrinter.RoundTripExactly: requires that the host does not count the double quote as a letter, which Unicode guarantees.
- ParserLaws.NamedParameter: requires the same of the slash, the modifiers and the parenthesis, as letters and as digits.
- PatternCompiler.SourceDenotes: the language of a custom regular expression is a parameter, and its text must be delimited as the parser's own scan delimits it; back references, flags and Python's own reading of such text are not modelled.
- PatternCompilation.Compile: whether a pattern is a full URL, which texts the regular-expression compiler takes and the Unicode classification of letters and digits are inputs.
- PatternFlatten.FlattenAgrees: the condition is sufficient; FlattenDisagrees shows a list beyond it on which the two differ, and lists beyond it on which they happen to agree are not characterised.
- Packets.WholePolicy: speaks of completed starts; during a repeated start the managed chain is empty for a while with its jump in place. Connection tracking is three fields of a packet, and REDIRECT sends to an address of the local machine.
- ConcurrentStarts.StartsAgree: no start fails or stops, as the promise is made for those only; deleting several copies of a guard is one step.
- Fixed loops over two families, two ports and two protocols are written as one call for each.
- Foreign deletion of resolv.conf, and other managers installing the same stub link themselves, are excluded from the resolver runs.
- Account lookup, network parsing, the set of installed time synchronisation users, service status and configuration files are inputs.
- Rendering and reading of `iptables -L` output is a test for a comment word and for the target DROP; lock waiting and error classification are not modelled.
- JSON, base64, temporary files, fsync, modes and directory checks are folded into one atomic replace or one create-only link.
- Rule lookup and the mitmproxy addon (`src/addon/rules.py`, `src/addon/addon.py`), the rules file, the installer and the web interface are not modelled.
