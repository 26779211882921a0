/** A reader for the regular-expression text the pattern compiler emits: literal
    and escaped characters, ".", "[^/]", non-capturing groups and the quantifiers
    "?", "+", "*" with an optional lazy mark. Group bodies outside this fragment
    can only come from a pattern's own regular expressions; they are kept as
    opaque sources whose language is a parameter. */
module RegexText {
  import opened Options
  import opened PatternTokens
  import opened Languages

  datatype Atom =
    | Char(c: char)
    | AnyButNewline
    | AnyButSlash
    | Sub(items: seq<Item>)
    | Opaque(source: string)

  datatype Item = Item(atom: Atom, count: Modifier)

  /** Which words an opaque regular-expression source matches in full. */
  type Oracle = (string, string) -> bool

  // --------------------------------------------------------------------- reader

  predicate Meta(c: char) {
    c in "()[]{}?*+|^$\\."
  }

  predicate AsciiAlphanumeric(c: char) {
    '0' <= c <= '9' || 'A' <= c <= 'Z' || 'a' <= c <= 'z'
  }

  /** How many characters precede the parenthesis that closes the scan. */
  function CloseAt(s: string, st: Scan): (r: Option<nat>)
    ensures r.Some? ==> r.value < |s|
    decreases s
  {
    if s == "" then None
    else if ScanChar(st, s[0]).depth == 0 then Some(0)
    else
      match CloseAt(s[1..], ScanChar(st, s[0]))
      case None => None
      case Some(n) => Some(n + 1)
  }

  /** The atom at the head of s and the number of characters it takes. */
  function ReadAtom(s: string): (r: Option<(Atom, nat)>)
    requires s != ""
    ensures r.Some? ==> 0 < r.value.1 <= |s|
    decreases |s|, 0
  {
    if s[0] == '\\' then
      if |s| > 1 && !AsciiAlphanumeric(s[1]) then Some((Char(s[1]), 2)) else None
    else if s[0] == '.' then Some((AnyButNewline, 1))
    else if "[^/]" <= s then Some((AnyButSlash, 4))
    else if "(?:" <= s then
      match CloseAt(s[3..], OPENED)
      case None => None
      case Some(n) => Some((BodyAtom(s[3..3 + n]), n + 4))
    else if Meta(s[0]) then None
    else Some((Char(s[0]), 1))
  }

  function BodyAtom(body: string): Atom
    decreases |body|, 3
  {
    match Read(body)
    case Some(items) => Sub(items)
    case None => Opaque(body)
  }

  /** The quantifier at the head of s; two quantifiers in a row do not read, nor
      do possessive ones. */
  function ReadCount(s: string): (r: Option<(Modifier, nat)>)
    ensures r.Some? ==> r.value.1 <= |s|
  {
    if !StartsWithModifier(s) then Some((Once, 0))
    else
      var m := match s[0] case '?' => Optional case '+' => OneOrMore case _ => ZeroOrMore;
      var k := if |s| > 1 && s[1] == '?' then 2 else 1;
      if StartsWithModifier(s[k..]) then None else Some((m, k))
  }

  /** The quantified atom at the head of s and the number of characters it takes. */
  function ReadItem(s: string): (r: Option<(Item, nat)>)
    requires s != ""
    ensures r.Some? ==> 0 < r.value.1 <= |s|
    decreases |s|, 1
  {
    match ReadAtom(s)
    case None => None
    case Some((atom, n)) =>
      match ReadCount(s[n..])
      case None => None
      case Some((m, k)) => Some((Item(atom, m), n + k))
  }

  function Read(s: string): Option<seq<Item>>
    decreases |s|, 2
  {
    if s == "" then Some([])
    else
      match ReadItem(s)
      case None => None
      case Some((item, n)) =>
        match Read(s[n..])
        case None => None
        case Some(items) => Some([item] + items)
  }

  // ------------------------------------------------------------------- language

  ghost function AtomLang(o: Oracle, a: Atom): Lang
    decreases a
  {
    match a
    case Char(c) => iset{[c]}
    case AnyButNewline => Singles(c => c != '\n')
    case AnyButSlash => Singles(c => c != '/')
    case Sub(items) => ItemsLang(o, items)
    case Opaque(source) => iset w: string | o(source, w)
  }

  ghost function ItemLang(o: Oracle, item: Item): Lang
    decreases item
  {
    Many(AtomLang(o, item.atom), item.count)
  }

  /** The words matched in full; laziness does not change this set. */
  ghost function ItemsLang(o: Oracle, items: seq<Item>): Lang
    decreases items
  {
    if items == [] then iset{""}
    else Cat(ItemLang(o, items[0]), ItemsLang(o, items[1..]))
  }

  /** The language of a source placed between "(?:" and ")". */
  ghost function BodyLang(o: Oracle, body: string): Lang {
    AtomLang(o, BodyAtom(body))
  }

  lemma {:induction false} ItemsLangAppend(o: Oracle, xs: seq<Item>, ys: seq<Item>)
    ensures ItemsLang(o, xs + ys) == Cat(ItemsLang(o, xs), ItemsLang(o, ys))
    decreases xs
  {
    if xs == [] {
      assert xs + ys == ys;
      CatUnit(ItemsLang(o, ys));
    } else {
      assert (xs + ys)[1..] == xs[1..] + ys && (xs + ys)[0] == xs[0];
      ItemsLangAppend(o, xs[1..], ys);
      CatAssoc(ItemLang(o, xs[0]), ItemsLang(o, xs[1..]), ItemsLang(o, ys));
    }
  }

  // -------------------------------------------------------------- unambiguity

  lemma {:induction false} CloseAtAppend(a: string, b: string, st: Scan)
    requires CloseAt(a, st).Some?
    ensures CloseAt(a + b, st) == CloseAt(a, st)
    decreases a
  {
    assert (a + b)[0] == a[0] && (a + b)[1..] == a[1..] + b;
    if ScanChar(st, a[0]).depth != 0 {
      CloseAtAppend(a[1..], b, ScanChar(st, a[0]));
    }
  }

  lemma ReadAtomAppend(a: string, b: string)
    requires a != "" && ReadAtom(a).Some?
    ensures ReadAtom(a + b) == ReadAtom(a)
  {
    var s := a + b;
    assert s[0] == a[0];
    if a[0] == '\\' {
      assert s[1] == a[1];
    } else if "[^/]" <= a {
      assert s[..4] == a[..4];
    } else if "(?:" <= a {
      assert s[..3] == a[..3] && s[3..] == a[3..] + b;
      CloseAtAppend(a[3..], b, OPENED);
      var n := CloseAt(a[3..], OPENED).value;
      assert s[3..3 + n] == a[3..3 + n];
    } else if "(?:" <= s || "[^/]" <= s {
      assert Meta(a[0]);
    }
  }

  lemma ReadItemAppend(a: string, b: string)
    requires a != "" && ReadItem(a).Some? && !StartsWithModifier(b)
    ensures ReadItem(a + b) == ReadItem(a)
  {
    hide ReadAtom, ReadCount, StartsWithModifier;
    ReadAtomAppend(a, b);
    var n := ReadAtom(a).value.1;
    ReadCountAppend(a[n..], b);
    assert (a + b)[n..] == a[n..] + b;
  }

  /** Text that reads, followed by text that does not begin with a quantifier,
      reads as the two readings in sequence. */
  lemma {:induction false} ReadAppend(a: string, b: string)
    requires Read(a).Some? && Read(b).Some? && !StartsWithModifier(b)
    ensures Read(a + b) == Some(Read(a).value + Read(b).value)
    decreases |a|
  {
    hide ReadItem, StartsWithModifier, Read;
    if a == "" {
      ReadNothing();
      assert a + b == b && [] + Read(b).value == Read(b).value;
    } else {
      ReadCons(a);
      ReadItemAppend(a, b);
      var (item, n) := ReadItem(a).value;
      assert (a + b)[n..] == a[n..] + b;
      ReadAppend(a[n..], b);
      ReadCons(a + b);
      assert [item] + (Read(a[n..]).value + Read(b).value) == [item] + Read(a[n..]).value + Read(b).value;
    }
  }

  lemma ReadNothing()
    ensures Read("") == Some([])
  {
  }

  lemma ReadCons(s: string)
    requires s != ""
    ensures ReadItem(s).None? ==> Read(s).None?
    ensures ReadItem(s).Some? ==>
      var (item, n) := ReadItem(s).value;
      Read(s) == if Read(s[n..]).Some? then Some([item] + Read(s[n..]).value) else None
  {
  }

  lemma ReadCountAppend(a: string, b: string)
    requires ReadCount(a).Some? && !StartsWithModifier(b)
    ensures ReadCount(a + b) == ReadCount(a)
  {
  }

  lemma {:induction false} CloseAtBody(body: string, rest: string, st: Scan)
    requires st.depth > 0 && ScanText(st, body) == OPENED
    ensures CloseAt(body + ")" + rest, st) == Some(|body|)
    decreases body
  {
    var s := body + ")" + rest;
    if body == "" {
      assert s[0] == ')';
    } else {
      assert s[0] == body[0] && s[1..] == body[1..] + ")" + rest;
      ScanAbsorbs(ScanChar(st, body[0]), body[1..]);
      CloseAtBody(body[1..], rest, ScanChar(st, body[0]));
    }
  }

  lemma {:induction false} ScanAbsorbs(st: Scan, s: string)
    ensures st.depth == 0 ==> ScanText(st, s).depth == 0
    decreases s
  {
    if s != "" {
      ScanAbsorbs(ScanChar(st, s[0]), s[1..]);
    }
  }

  /** A scan that stays open behaves the same one level deeper. */
  lemma {:induction false} ScanDeeper(st: Scan, s: string)
    requires ScanText(st, s).depth > 0
    ensures ScanText(st.(depth := st.depth + 1), s) == ScanText(st, s).(depth := ScanText(st, s).depth + 1)
    decreases s
  {
    ScanAbsorbs(st, s);
    if s != "" {
      ScanAbsorbs(ScanChar(st, s[0]), s[1..]);
      ScanDeeper(ScanChar(st, s[0]), s[1..]);
    }
  }

  function GroupText(body: string, m: Modifier): string {
    "(?:" + body + ")" + ModifierText(m)
  }

  lemma GroupBalanced(body: string, m: Modifier)
    requires Balanced(body)
    ensures Balanced(GroupText(body, m))
  {
    var inner := Scan(2, false, false);
    assert ScanText(OPENED, "(?:") == inner by {
      assert ScanText(inner, "?:") == ScanText(inner, ":") == ScanText(inner, "") == inner;
    }
    ScanDeeper(OPENED, body);
    ScanAppend(OPENED, "(?:", body);
    assert ScanText(inner, ")") == ScanText(OPENED, "") == OPENED;
    ScanAppend(OPENED, "(?:" + body, ")");
    assert ScanText(OPENED, ModifierText(m)) == OPENED by {
      assert m != Once ==> ScanText(OPENED, ModifierText(m)) == ScanText(OPENED, "");
    }
    ScanAppend(OPENED, "(?:" + body + ")", ModifierText(m));
  }

  lemma GroupReads(body: string, m: Modifier)
    requires Balanced(body)
    ensures Read(GroupText(body, m)) == Some([Item(BodyAtom(body), m)])
  {
    var s, mod := GroupText(body, m), ModifierText(m);
    assert s[3..] == body + ")" + mod && s[3..3 + |body|] == body && s[|body| + 4..] == mod;
    assert s[0] == '(' && s[..3] == "(?:";
    CloseAtBody(body, mod, OPENED);
    assert ReadAtom(s) == Some((BodyAtom(body), |body| + 4));
    assert ReadCount(mod) == Some((m, |mod|)) by {
      assert mod != "" ==> mod[1..] == "";
    }
    assert mod[|mod|..] == "" && s[|body| + 4 + |mod|..] == "";
    assert [Item(BodyAtom(body), m)] + [] == [Item(BodyAtom(body), m)];
  }

  // ----------------------------------------------------------------- denotation

  /** Regular-expression text that reads, denotes exactly l, and can stand before
      or after any other such text without changing how either reads. */
  ghost predicate Denotes(o: Oracle, text: string, l: Lang) {
    && Balanced(text)
    && !StartsWithModifier(text)
    && Read(text).Some?
    && ItemsLang(o, Read(text).value) == l
  }

  lemma DenotesCat(o: Oracle, a: string, la: Lang, b: string, lb: Lang)
    requires Denotes(o, a, la) && Denotes(o, b, lb)
    ensures Denotes(o, a + b, Cat(la, lb))
  {
    hide Read, ScanText, ItemsLang;
    ScanAppend(OPENED, a, b);
    ReadAppend(a, b);
    ItemsLangAppend(o, Read(a).value, Read(b).value);
    if a == "" {
      assert a + b == b;
    }
  }

  lemma SingleItem(o: Oracle, item: Item)
    ensures ItemsLang(o, [item]) == ItemLang(o, item)
  {
    assert [item][1..] == [];
    RightUnit(ItemLang(o, item));
  }

  lemma DenotesGroup(o: Oracle, body: string, m: Modifier)
    requires Balanced(body)
    ensures Denotes(o, GroupText(body, m), Many(BodyLang(o, body), m))
  {
    GroupBalanced(body, m);
    GroupReads(body, m);
    SingleItem(o, Item(BodyAtom(body), m));
  }

  lemma DenotesBody(o: Oracle, body: string, l: Lang)
    requires Denotes(o, body, l)
    ensures Balanced(body) && BodyLang(o, body) == l
  {
  }

  lemma DenotesEmpty(o: Oracle)
    ensures Denotes(o, "", iset{""})
  {
  }

  lemma ReadsAsItem(o: Oracle, s: string, item: Item)
    requires s != "" && ReadItem(s) == Some((item, |s|))
    ensures Read(s) == Some([item]) && ItemsLang(o, [item]) == ItemLang(o, item)
  {
    hide ReadItem, ItemsLang;
    assert s[|s|..] == "" && [item] + [] == [item];
    SingleItem(o, item);
  }
}
