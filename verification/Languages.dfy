/** Sets of strings with concatenation and counted repetition. */
module Languages {
  import opened PatternTokens

  type Lang = iset<string>

  ghost function Cat(a: Lang, b: Lang): Lang {
    iset x, y | x in a && y in b :: x + y
  }

  ghost function Pow(a: Lang, n: nat): Lang {
    if n == 0 then iset{""} else Cat(a, Pow(a, n - 1))
  }

  predicate Allows(m: Modifier, n: nat) {
    match m
    case Once => n == 1
    case Optional => n <= 1
    case OneOrMore => n >= 1
    case ZeroOrMore => true
  }

  /** As many copies of a as the modifier allows. */
  ghost function Many(a: Lang, m: Modifier): Lang {
    iset n: nat, w | Allows(m, n) && w in Pow(a, n) :: w
  }

  /** One-character strings. */
  ghost function Singles(p: char -> bool): Lang {
    iset w: string | |w| == 1 && p(w[0])
  }

  lemma CatIn(a: Lang, b: Lang, x: string, y: string)
    requires x in a && y in b
    ensures x + y in Cat(a, b)
  {
  }

  lemma CatUnit(a: Lang)
    ensures Cat(iset{""}, a) == a && Cat(a, iset{""}) == a
  {
    LeftUnit(a);
    RightUnit(a);
  }

  lemma LeftUnit(a: Lang)
    ensures Cat(iset{""}, a) == a
  {
    var u := iset{""};
    forall w | w in a ensures w in Cat(u, a) {
      assert "" in u && w == "" + w;
    }
    forall w | w in Cat(u, a) ensures w in a {
      var x, y :| x in u && y in a && w == x + y;
      assert w == y;
    }
  }

  lemma RightUnit(a: Lang)
    ensures Cat(a, iset{""}) == a
  {
    var u := iset{""};
    forall w | w in a ensures w in Cat(a, u) {
      assert "" in u && w == w + "";
    }
    forall w | w in Cat(a, u) ensures w in a {
      var x, y :| x in a && y in u && w == x + y;
      assert w == x;
    }
  }

  lemma CatAssoc(a: Lang, b: Lang, c: Lang)
    ensures Cat(Cat(a, b), c) == Cat(a, Cat(b, c))
  {
    forall x, y, z | x in a && y in b && z in c
      ensures x + y + z == x + (y + z)
      ensures x + (y + z) in Cat(a, Cat(b, c)) && x + y + z in Cat(Cat(a, b), c)
    {
      CatIn(b, c, y, z);
      CatIn(a, Cat(b, c), x, y + z);
      CatIn(a, b, x, y);
      CatIn(Cat(a, b), c, x + y, z);
    }
    forall w | w in Cat(Cat(a, b), c) ensures w in Cat(a, Cat(b, c)) {
      var xy, z :| xy in Cat(a, b) && z in c && w == xy + z;
      var x, y :| x in a && y in b && xy == x + y;
    }
    forall w | w in Cat(a, Cat(b, c)) ensures w in Cat(Cat(a, b), c) {
      var x, yz :| x in a && yz in Cat(b, c) && w == x + yz;
      var y, z :| y in b && z in c && yz == y + z;
    }
  }

  lemma CatWords(x: string, y: string)
    ensures Cat(iset{x}, iset{y}) == iset{x + y}
  {
  }

  lemma ManyOnce(a: Lang)
    ensures Many(a, Once) == a
  {
    assert Pow(a, 1) == a by {
      RightUnit(a);
      assert Pow(a, 0) == iset{""};
    }
    forall w | w in a ensures w in Many(a, Once) {
      assert Allows(Once, 1) && w in Pow(a, 1);
    }
  }

  /** n one-character words make exactly the n-character words. */
  lemma {:induction false} PowSingles(p: char -> bool, n: nat)
    ensures Pow(Singles(p), n) == iset w: string | |w| == n && forall k :: 0 <= k < |w| ==> p(w[k])
  {
    if n > 0 {
      PowSingles(p, n - 1);
      forall w | w in Pow(Singles(p), n) ensures |w| == n && forall k :: 0 <= k < |w| ==> p(w[k]) {
        var x, y :| x in Singles(p) && y in Pow(Singles(p), n - 1) && w == x + y;
      }
      forall w: string | |w| == n && forall k :: 0 <= k < |w| ==> p(w[k]) ensures w in Pow(Singles(p), n) {
        assert w == w[..1] + w[1..];
        CatIn(Singles(p), Pow(Singles(p), n - 1), w[..1], w[1..]);
      }
    }
  }

  lemma ManySingles(p: char -> bool, m: Modifier)
    ensures Many(Singles(p), m) == iset w: string | Allows(m, |w|) && forall k :: 0 <= k < |w| ==> p(w[k])
  {
    forall n: nat {
      PowSingles(p, n);
    }
    forall w: string | Allows(m, |w|) && forall k :: 0 <= k < |w| ==> p(w[k]) ensures w in Many(Singles(p), m) {
      assert Allows(m, |w|) && w in Pow(Singles(p), |w|);
    }
  }
}
