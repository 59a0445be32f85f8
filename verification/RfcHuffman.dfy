/** The code of Appendix B of RFC 7541 is prefix-free and complete, and its end-of-string
    symbol is thirty ones. */
module RfcHuffman {
  import opened Bytes
  import opened BitStrings
  import opened HuffmanCode
  import opened HuffmanTable

  // ---- Code words ---------------------------------------------------------

  function Word(sym: nat): bits {
    WordOf(TableEntry(sym))
  }

  /** Follows the bits of `s` down the code tree: the symbol reached and the bits used. */
  function Walk(t: CodeTree, s: bits): Option<(nat, nat)> {
    match t
    case Leaf(sym) => Some((sym, 0))
    case Node(l, r) =>
      if s == [] then None
      else
        match Walk(if s[0] then r else l, s[1..])
        case None => None
        case Some((sym, n)) => Some((sym, n + 1))
  }

  ghost function Leaves(t: CodeTree): set<nat> {
    match t
    case Leaf(s) => {s}
    case Node(l, r) => Leaves(l) + Leaves(r)
  }

  /** The symbols of a subtree have their code words inside the subtree's range. */
  lemma {:induction false} LeavesInRange(t: CodeTree, p: Place)
    requires p.depth <= 32 && p.width == Pow2(32 - p.depth) && Agrees(t, p)
    ensures forall s :: s in Leaves(t) ==> s <= EOS && p.code <= TableEntry(s).code < p.code + p.width
    ensures |Leaves(t)| == Size(t)
    decreases t
  {
    match t
    case Leaf(s) =>
    case Node(l, r) =>
      NotDeep(t, p);
      LeavesInRange(l, ZeroSide(p));
      LeavesInRange(r, OneSide(p));
      assert Leaves(l) !! Leaves(r);
  }

  lemma {:induction false} NotDeep(t: CodeTree, p: Place)
    requires Agrees(t, p)
    ensures p.depth <= 30
    decreases t
  {
    match t
    case Leaf(s) =>
    case Node(l, r) => NotDeep(l, ZeroSide(p));
  }

  ghost function Below(n: nat): (r: set<nat>)
    ensures |r| == n && forall x: nat :: x in r <==> x < n
  {
    if n == 0 then {} else Below(n - 1) + {n - 1}
  }

  /** A set of `n` numbers below `n` has them all. */
  lemma FullSet(s: set<nat>, n: nat)
    requires (forall x :: x in s ==> x < n) && |s| == n
    ensures s == Below(n)
  {
    if s != Below(n) {
      assert s <= Below(n);
      var x :| x in Below(n) && x !in s;
      SubsetSize(s, Below(n) - {x});
    }
  }

  lemma {:induction false} SubsetSize<T>(a: set<T>, b: set<T>)
    requires a <= b
    ensures |a| <= |b|
  {
    if a != {} {
      var x :| x in a;
      SubsetSize(a - {x}, b - {x});
    }
  }

  /** The place of the node whose path has the value `v`. */
  predicate At(p: Place, v: nat) {
    p.depth <= 32 && p.width == Pow2(32 - p.depth) && p.code == v * p.width
  }

  lemma AtSides(p: Place, v: nat)
    requires At(p, v) && p.depth <= 30
    ensures At(ZeroSide(p), 2 * v) && At(OneSide(p), 2 * v + 1)
  {
    assert p.width == 2 * Pow2(31 - p.depth);
  }

  lemma AtLeaf(p: Place, path: bits)
    requires At(p, Value(path)) && p.depth == |path|
    ensures WordOf(HuffmanSym(p.depth, p.code)) == path
  {
    DivModUnique(p.width, Value(path), 0);
    ToBitsValue(path);
  }

  predicate OnPath(p: Place, path: bits) {
    p.depth == |path| && At(p, Value(path))
  }

  lemma Descend(p: Place, path: bits, b: bool)
    requires OnPath(p, path) && p.depth <= 30
    ensures OnPath(if b then OneSide(p) else ZeroSide(p), path + [b])
  {
    assert (path + [b])[..|path|] == path;
    AtSides(p, Value(path));
  }

  /** The path that leads to a leaf spells the code word of its symbol. */
  lemma {:induction false} WalkSpellsWord(t: CodeTree, p: Place, path: bits, s: bits)
    requires OnPath(p, path) && Agrees(t, p) && Walk(t, s).Some?
    ensures Walk(t, s).value.1 <= |s| && Walk(t, s).value.0 <= EOS
    ensures Word(Walk(t, s).value.0) == path + s[..Walk(t, s).value.1]
    ensures LeftJustified(TableEntry(Walk(t, s).value.0))
    decreases t
  {
    match t
    case Leaf(sym) =>
      AtLeaf(p, path);
      assert path + s[..0] == path;
    case Node(l, r) =>
      NotDeep(t, p);
      Descend(p, path, s[0]);
      if s[0] {
        WalkSpellsWord(r, OneSide(p), path + [true], s[1..]);
      } else {
        WalkSpellsWord(l, ZeroSide(p), path + [false], s[1..]);
      }
      Regroup(path, s, Walk(t, s).value.1);
  }

  lemma Regroup(path: bits, s: bits, n: nat)
    requires 1 <= n <= |s|
    ensures path + s[..n] == path + [s[0]] + s[1..][..n - 1]
  {
  }

  lemma {:induction false} WalkStable(t: CodeTree, s: bits, more: bits)
    requires Walk(t, s).Some?
    ensures Walk(t, s + more) == Walk(t, s)
    decreases t
  {
    match t
    case Leaf(_) =>
    case Node(l, r) =>
      assert (s + more)[1..] == s[1..] + more;
      WalkStable(if s[0] then r else l, s[1..], more);
  }

  lemma {:induction false} WalkToLeaf(t: CodeTree, sym: nat) returns (s: bits)
    requires sym in Leaves(t)
    ensures Walk(t, s) == Some((sym, |s|))
    decreases t
  {
    match t
    case Leaf(_) => s := [];
    case Node(l, r) =>
      if sym in Leaves(l) {
        s := WalkToLeaf(l, sym);
        assert ([false] + s)[1..] == s;
        s := [false] + s;
      } else {
        s := WalkToLeaf(r, sym);
        assert ([true] + s)[1..] == s;
        s := [true] + s;
      }
  }

  lemma {:induction false} WalkLongEnough(t: CodeTree, p: Place, s: bits)
    requires Agrees(t, p) && p.depth + |s| >= 30
    ensures Walk(t, s).Some?
    decreases t
  {
    match t
    case Leaf(_) =>
    case Node(l, r) =>
      NotDeep(l, ZeroSide(p));
      WalkLongEnough(if s[0] then r else l, if s[0] then OneSide(p) else ZeroSide(p), s[1..]);
  }

  lemma {:induction false} EntryInTree(t: CodeTree, p: Place, sym: nat)
    requires Agrees(t, p) && sym in Leaves(t)
    ensures 5 <= TableEntry(sym).bits <= 30
    decreases t
  {
    match t
    case Leaf(_) =>
    case Node(l, r) =>
      if sym in Leaves(l) {
        EntryInTree(l, ZeroSide(p), sym);
      } else {
        EntryInTree(r, OneSide(p), sym);
      }
  }

  const ROOT: Place := Place(0, 0, 0x1_0000_0000)

  lemma CodeTreeOf() returns (t: CodeTree)
    ensures Agrees(t, ROOT) && Leaves(t) == Below(EOS + 1)
  {
    t := WholeTree();
    Pow2Values();
    LeavesInRange(t, ROOT);
    FullSet(Leaves(t), EOS + 1);
  }

  predicate Starts(sym: nat, s: bits) {
    StartsWith(s, TableEntry(sym))
  }

  lemma WalkSpells(t: CodeTree, s: bits)
    requires Agrees(t, ROOT) && Walk(t, s).Some?
    ensures Walk(t, s).value.1 <= |s| && Word(Walk(t, s).value.0) == s[..Walk(t, s).value.1]
  {
    hide Agrees, Leaves, TableEntry, WordOf;
    Pow2Values();
    WalkSpellsWord(t, ROOT, [], s);
    assert [] + s[..Walk(t, s).value.1] == s[..Walk(t, s).value.1];
  }

  lemma StartsIsWalk(t: CodeTree, sym: nat, s: bits)
    requires Agrees(t, ROOT) && sym in Leaves(t)
    ensures Starts(sym, s) <==> Walk(t, s) == Some((sym, |Word(sym)|))
  {
    hide Agrees, Leaves, TableEntry, Walk, WordOf;
    var p := WalkToLeaf(t, sym);
    WalkSpells(t, p);
    assert p[..|p|] == p;
    if Starts(sym, s) {
      assert s == p + s[|p|..];
      WalkStable(t, p, s[|p|..]);
    }
    if Walk(t, s) == Some((sym, |Word(sym)|)) {
      WalkSpells(t, s);
    }
  }

  lemma WordLength(sym: nat)
    requires sym <= EOS
    ensures 5 <= TableEntry(sym).bits <= 30 && |Word(sym)| == TableEntry(sym).bits
    ensures LeftJustified(TableEntry(sym))
  {
    var t := CodeTreeOf();
    EntryInTree(t, ROOT, sym);
    var p := WalkToLeaf(t, sym);
    Pow2Values();
    WalkSpellsWord(t, ROOT, [], p);
  }

  /** The code is prefix-free: no bit string starts with two code words. */
  lemma PrefixFree(a: nat, b: nat, s: bits)
    requires a <= EOS && b <= EOS && Starts(a, s) && Starts(b, s)
    ensures a == b
  {
    var t := CodeTreeOf();
    StartsIsWalk(t, a, s);
    StartsIsWalk(t, b, s);
  }

  /** The code is complete: thirty bits always start with a code word. */
  lemma Complete(s: bits) returns (sym: nat)
    requires |s| >= 30
    ensures sym <= EOS && Starts(sym, s)
  {
    var t := CodeTreeOf();
    Pow2Values();
    WalkLongEnough(t, ROOT, s);
    WalkSpellsWord(t, ROOT, [], s);
    sym := Walk(t, s).value.0;
    assert s[..Walk(t, s).value.1] <= s;
  }

  lemma EosIsOnes()
    ensures Word(EOS) == Ones(30)
  {
    assert TableEntry(256) == HuffmanSym(30, 0xfffffffc);
    assert Pow2(2) == 4;
    OnesValue(30);
    Pow2Values();
    assert 0xfffffffc / 4 == 0x3fffffff;
    ToBitsValue(Ones(30));
  }

  function Table(): (t: seq<HuffmanSym>)
    ensures |t| == EOS + 1
  {
    seq(EOS + 1, (i: nat) => TableEntry(i))
  }

  lemma TableIsGood()
    ensures GoodTable(Table())
  {
    var t := Table();
    forall sym: nat | sym < |t| ensures 5 <= t[sym].bits <= 30 && LeftJustified(t[sym]) {
      WordLength(sym);
    }
    forall a, b, s | 0 <= a <= EOS && 0 <= b <= EOS && StartsWith(s, t[a]) && StartsWith(s, t[b])
      ensures a == b
    {
      PrefixFree(a, b, s);
    }
    forall s | LongEnough(s) ensures exists sym :: 0 <= sym <= EOS && StartsWith(s, t[sym]) {
      var sym := Complete(s);
      assert StartsWith(s, t[sym]);
    }
    EosIsOnes();
  }
}
