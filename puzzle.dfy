/**
 * The permutation/orientation simulator shared by five_cycle.js,
 * python/five_cycle.py and python/tracer.py: `pieces[pos]` is the piece
 * sitting at position `pos`, `oris[pos]` how far it is turned; a sticker
 * swap moves two pieces and re-turns them so the two letters trade places.
 *
 * The specification is on values (`Config`); the class `State` holds the two
 * arrays the source mutates and is proved against it.
 */
module Puzzle {
  import opened Wrappers
  import opened Arith
  import opened Scheme

  /** `{ pieces, oris }`. */
  datatype Config = Config(pieces: seq<int>, oris: seq<int>)

  datatype SimError = NotInScheme(letter: char)

  /** `pieces` is a permutation of the block indices and every `oris` entry is below `blockLen`. */
  ghost predicate ValidConfig(d: SchemeData, c: Config) {
    var n := |d.blocks|;
    && |c.pieces| == n && |c.oris| == n
    && (forall p :: 0 <= p < n ==> 0 <= c.pieces[p] < n)
    && (forall p, q :: 0 <= p < n && 0 <= q < n && c.pieces[p] == c.pieces[q] ==> p == q)
    && (forall k :: 0 <= k < n ==> k in c.pieces)
    && (forall p :: 0 <= p < n ==> 0 <= c.oris[p] < d.blockLen)
  }

  /** `solvedState`: piece `i` at position `i`, untwisted. */
  function SolvedConfig(n: nat): (c: Config)
    ensures |c.pieces| == n && |c.oris| == n
    ensures forall p :: 0 <= p < n ==> c.pieces[p] == p && c.oris[p] == 0
  {
    Config(seq(n, i => i), seq(n, i => 0))
  }

  lemma SolvedIsValid(d: SchemeData)
    requires Consistent(d)
    ensures ValidConfig(d, SolvedConfig(|d.blocks|))
  {
    var c := SolvedConfig(|d.blocks|);
    forall k | 0 <= k < |d.blocks| ensures k in c.pieces {
      assert c.pieces[k] == k;
    }
  }

  /**
   * `letterAtSlot`: the letter visible at `(pos, slot)` is side
   * `(slot - o) mod blockLen` of the piece there, `o` the orientation
   * reduced mod `blockLen`. Every slot the simulator asks about is below
   * `blockLen` and every orientation it stores is in range, so each
   * reduction is one wrap-around step (`Wrap`); `VisibleSide` shows this is
   * the source's `((x % m) + m) % m` on both reductions.
   */
  function LetterAtSlot(d: SchemeData, c: Config, pos: nat, slot: nat): (ch: char)
    requires Consistent(d) && ValidConfig(d, c) && pos < |d.blocks| && slot < d.blockLen
    ensures ch in d.refPos
  {
    var side := Side(d, c, pos, slot);
    assert d.refPos[d.blocks[c.pieces[pos]][side]] == Slot(c.pieces[pos], side);
    d.blocks[c.pieces[pos]][side]
  }

  /** The side of the piece at `pos` that faces `slot`. */
  function Side(d: SchemeData, c: Config, pos: nat, slot: nat): (side: nat)
    requires Consistent(d) && ValidConfig(d, c) && pos < |d.blocks| && slot < d.blockLen
    ensures side < d.blockLen
  {
    Facing(slot, c.oris[pos], d.blockLen)
  }

  /** The side facing `slot` of a piece turned by `o`, both below `m`. */
  function Facing(slot: int, o: int, m: int): (side: nat)
    requires m > 0 && 0 <= slot < m && 0 <= o < m
    ensures side < m
  {
    Wrap(slot - Wrap(o, m), m)
  }

  /** The visible side is the source's double JavaScript remainder (and Python's `%`). */
  lemma VisibleSide(d: SchemeData, c: Config, pos: nat, slot: nat)
    requires Consistent(d) && ValidConfig(d, c) && pos < |d.blocks| && slot < d.blockLen
    ensures LetterAtSlot(d, c, pos, slot)
      == d.blocks[c.pieces[pos]][JsMod(slot - JsMod(c.oris[pos], d.blockLen), d.blockLen)]
    ensures LetterAtSlot(d, c, pos, slot)
      == d.blocks[c.pieces[pos]][(slot - c.oris[pos] % d.blockLen) % d.blockLen]
  {
    var m := d.blockLen;
    WrapIsMod(c.oris[pos], m);
    WrapIsMod(slot - Wrap(c.oris[pos], m), m);
  }

  /** In the solved state every slot shows its own letter. */
  lemma SolvedShowsBlocks(d: SchemeData, pos: nat, slot: nat)
    requires Consistent(d) && pos < |d.blocks| && slot < d.blockLen
    ensures ValidConfig(d, SolvedConfig(|d.blocks|))
    ensures LetterAtSlot(d, SolvedConfig(|d.blocks|), pos, slot) == d.blocks[pos][slot]
  {
    SolvedIsValid(d);
  }

  /** In a valid state a letter is visible in at most one slot. */
  lemma ShownOnce(d: SchemeData, c: Config, p1: nat, s1: nat, p2: nat, s2: nat)
    requires Consistent(d) && ValidConfig(d, c)
    requires p1 < |d.blocks| && p2 < |d.blocks| && s1 < d.blockLen && s2 < d.blockLen
    requires LetterAtSlot(d, c, p1, s1) == LetterAtSlot(d, c, p2, s2)
    ensures p1 == p2 && s1 == s2
  {
    var side1 := Side(d, c, p1, s1);
    var side2 := Side(d, c, p2, s2);
    assert d.refPos[d.blocks[c.pieces[p1]][side1]] == Slot(c.pieces[p1], side1);
    assert d.refPos[d.blocks[c.pieces[p2]][side2]] == Slot(c.pieces[p2], side2);
  }

  /** A scheme letter is visible somewhere in every valid state. */
  lemma SchemeLetterShown(d: SchemeData, c: Config, ch: char) returns (at: Slot)
    requires Consistent(d) && ValidConfig(d, c) && ch in d.refPos
    ensures at.pos < |d.blocks| && at.slot < d.blockLen
    ensures LetterAtSlot(d, c, at.pos, at.slot) == ch
  {
    var home := d.refPos[ch];
    assert home.pos in c.pieces;
    var p :| 0 <= p < |c.pieces| && c.pieces[p] == home.pos;
    var m := d.blockLen;
    var s := if home.slot + c.oris[p] < m then home.slot + c.oris[p] else home.slot + c.oris[p] - m;
    assert Side(d, c, p, s) == home.slot;
    at := Slot(p, s);
  }

  /** Row-major order on slots. */
  predicate Before(a: Slot, b: Slot) {
    a.pos < b.pos || (a.pos == b.pos && a.slot < b.slot)
  }

  /** The inner loop of `findCurrentSlot`: the first slot of row `pos`, from `slot` on, showing `letter`. */
  function LocateInRow(d: SchemeData, c: Config, letter: char, pos: nat, slot: nat): (r: Option<nat>)
    requires Consistent(d) && ValidConfig(d, c) && pos < |d.blocks| && slot <= d.blockLen
    ensures r.Some? ==> slot <= r.value < d.blockLen && LetterAtSlot(d, c, pos, r.value) == letter
    ensures forall s: nat :: slot <= s < d.blockLen && (r.None? || s < r.value) ==> LetterAtSlot(d, c, pos, s) != letter
    decreases d.blockLen - slot
  {
    if slot == d.blockLen then None
    else if LetterAtSlot(d, c, pos, slot) == letter then Some(slot)
    else LocateInRow(d, c, letter, pos, slot + 1)
  }

  /** The outer loop of `findCurrentSlot`: the row-major search from row `pos` on. */
  function LocateFrom(d: SchemeData, c: Config, letter: char, pos: nat): (r: Option<Slot>)
    requires Consistent(d) && ValidConfig(d, c) && pos <= |d.blocks|
    ensures r.Some? ==> (pos <= r.value.pos < |d.blocks| && r.value.slot < d.blockLen
      && LetterAtSlot(d, c, r.value.pos, r.value.slot) == letter)
    ensures forall p: nat, s: nat :: (pos <= p < |d.blocks| && s < d.blockLen
      && (r.None? || Before(Slot(p, s), r.value))) ==> LetterAtSlot(d, c, p, s) != letter
    decreases |d.blocks| - pos
  {
    if pos == |d.blocks| then None
    else match LocateInRow(d, c, letter, pos, 0)
      case Some(s) => Some(Slot(pos, s))
      case None => LocateFrom(d, c, letter, pos + 1)
  }

  /** `findCurrentSlot`: the first slot in row-major order that shows `letter`; None where the source throws. */
  function Locate(d: SchemeData, c: Config, letter: char): (r: Option<Slot>)
    requires Consistent(d) && ValidConfig(d, c)
    ensures r.Some? ==> (r.value.pos < |d.blocks| && r.value.slot < d.blockLen
      && LetterAtSlot(d, c, r.value.pos, r.value.slot) == letter)
    ensures r.Some? ==> forall p: nat, s: nat ::
      (p < |d.blocks| && s < d.blockLen && Before(Slot(p, s), r.value)) ==> LetterAtSlot(d, c, p, s) != letter
    ensures r.None? ==> forall p: nat, s: nat :: p < |d.blocks| && s < d.blockLen ==> LetterAtSlot(d, c, p, s) != letter
  {
    LocateFrom(d, c, letter, 0)
  }

  /** In a valid state the search finds exactly the scheme letters, at the one slot that shows them. */
  lemma LocateExact(d: SchemeData, c: Config, letter: char)
    requires Consistent(d) && ValidConfig(d, c)
    ensures Locate(d, c, letter).Some? <==> letter in d.refPos
  {
    if letter in d.refPos {
      var at := SchemeLetterShown(d, c, letter);
    }
  }

  lemma LocateShown(d: SchemeData, c: Config, letter: char, pos: nat, slot: nat)
    requires Consistent(d) && ValidConfig(d, c) && pos < |d.blocks| && slot < d.blockLen
    requires LetterAtSlot(d, c, pos, slot) == letter
    ensures Locate(d, c, letter) == Some(Slot(pos, slot))
  {
    var r := Locate(d, c, letter);
    ShownOnce(d, c, r.value.pos, r.value.slot, pos, slot);
  }

  /**
   * The body of `swapStickers` once both letters are found at `a` and `b`:
   * the two pieces trade positions, and each is turned so that the letter
   * it carries shows at the other's slot.
   */
  function SwapAt(d: SchemeData, c: Config, a: Slot, b: Slot): (r: Config)
    requires Consistent(d) && ValidConfig(d, c) && a.pos < |d.blocks| && b.pos < |d.blocks|
    requires a.slot < d.blockLen && b.slot < d.blockLen
    ensures ValidConfig(d, r)
    ensures forall p :: 0 <= p < |d.blocks| && p != a.pos && p != b.pos ==>
      r.pieces[p] == c.pieces[p] && r.oris[p] == c.oris[p]
    ensures r.pieces[a.pos] == c.pieces[b.pos] && r.pieces[b.pos] == c.pieces[a.pos]
  {
    var m := d.blockLen;
    var pieceA := c.pieces[a.pos];
    var pieceB := c.pieces[b.pos];
    var sideA := Side(d, c, a.pos, a.slot);
    var sideB := Side(d, c, b.pos, b.slot);
    var newOA := Wrap(a.slot - sideB, m);
    var newOB := Wrap(b.slot - sideA, m);
    var r := Config(c.pieces[a.pos := pieceB][b.pos := pieceA], c.oris[a.pos := newOA][b.pos := newOB]);
    SwapKeepsValid(d, c, a.pos, b.pos, r);
    r
  }

  /** A configuration with the two positions written as `swapStickers` writes them is `SwapAt`. */
  lemma SwapAtIs(d: SchemeData, c: Config, a: Slot, b: Slot, sideA: int, sideB: int, r: Config)
    requires Consistent(d) && ValidConfig(d, c) && a.pos < |d.blocks| && b.pos < |d.blocks|
    requires a.slot < d.blockLen && b.slot < d.blockLen
    requires sideA == Side(d, c, a.pos, a.slot) && sideB == Side(d, c, b.pos, b.slot)
    requires r.pieces == c.pieces[a.pos := c.pieces[b.pos]][b.pos := c.pieces[a.pos]]
    requires r.oris == c.oris[a.pos := Wrap(a.slot - sideB, d.blockLen)][b.pos := Wrap(b.slot - sideA, d.blockLen)]
    ensures r == SwapAt(d, c, a, b)
  {
    var s := SwapAt(d, c, a, b);
    assert s.pieces == r.pieces;
    assert s.oris == r.oris;
  }

  /** The orientations `SwapAt` writes: each piece turned so its letter faces the other slot. */
  lemma SwapAtOris(d: SchemeData, c: Config, a: Slot, b: Slot)
    requires Consistent(d) && ValidConfig(d, c) && a.pos < |d.blocks| && b.pos < |d.blocks|
    requires a.slot < d.blockLen && b.slot < d.blockLen
    ensures SwapAt(d, c, a, b).oris == c.oris[a.pos := Wrap(a.slot - Side(d, c, b.pos, b.slot), d.blockLen)]
      [b.pos := Wrap(b.slot - Side(d, c, a.pos, a.slot), d.blockLen)]
  {
  }

  lemma SwapKeepsValid(d: SchemeData, c: Config, i: nat, j: nat, r: Config)
    requires Consistent(d) && ValidConfig(d, c) && i < |d.blocks| && j < |d.blocks|
    requires r.pieces == c.pieces[i := c.pieces[j]][j := c.pieces[i]]
    requires |r.oris| == |d.blocks| && forall p :: 0 <= p < |d.blocks| ==> 0 <= r.oris[p] < d.blockLen
    ensures ValidConfig(d, r)
  {
    var n := |d.blocks|;
    forall p, q | 0 <= p < n && 0 <= q < n && r.pieces[p] == r.pieces[q] ensures p == q {
      var p' := if p == i then j else if p == j then i else p;
      var q' := if q == i then j else if q == j then i else q;
      assert r.pieces[p] == c.pieces[p'] && r.pieces[q] == c.pieces[q'];
    }
    forall k | 0 <= k < n ensures k in r.pieces {
      assert k in c.pieces;
      var p :| 0 <= p < n && c.pieces[p] == k;
      var p' := if p == i then j else if p == j then i else p;
      assert r.pieces[p'] == k;
    }
  }

  /** `swapStickers(A, B)`; None where the source throws because a letter is not visible. */
  function SwapResult(d: SchemeData, c: Config, x: char, y: char): (r: Option<Config>)
    requires Consistent(d) && ValidConfig(d, c)
    ensures r.Some? ==> ValidConfig(d, r.value)
  {
    match Locate(d, c, x)
    case None => None
    case Some(a) =>
      match Locate(d, c, y)
      case None => None
      case Some(b) => Some(SwapAt(d, c, a, b))
  }

  /**
   * The sticker 2-cycle: it succeeds exactly for scheme letters; afterwards
   * `x` shows at `y`'s old slot and, when they sat on different positions,
   * `y` shows at `x`'s old slot; every other position is untouched.
   */
  lemma SwapStickersEffect(d: SchemeData, c: Config, x: char, y: char)
    requires Consistent(d) && ValidConfig(d, c)
    ensures SwapResult(d, c, x, y).Some? <==> x in d.refPos && y in d.refPos
    ensures SwapResult(d, c, x, y).Some? ==>
      var a := Locate(d, c, x).value;
      var b := Locate(d, c, y).value;
      var r := SwapResult(d, c, x, y).value;
      && LetterAtSlot(d, r, b.pos, b.slot) == x
      && (a.pos != b.pos ==> LetterAtSlot(d, r, a.pos, a.slot) == y)
      && (forall p: nat, s: nat :: p < |d.blocks| && s < d.blockLen && p != a.pos && p != b.pos ==>
            LetterAtSlot(d, r, p, s) == LetterAtSlot(d, c, p, s))
  {
    LocateExact(d, c, x);
    LocateExact(d, c, y);
    if x in d.refPos && y in d.refPos {
      var a := Locate(d, c, x).value;
      var b := Locate(d, c, y).value;
      SwapShowsFirst(d, c, a, b);
      if a.pos != b.pos {
        SwapShowsSecond(d, c, a, b);
      }
      SwapLeavesOthers(d, c, a, b);
    }
  }

  /** The letter that was at `a` shows at `b` after the swap. */
  lemma SwapShowsFirst(d: SchemeData, c: Config, a: Slot, b: Slot)
    requires Consistent(d) && ValidConfig(d, c) && a.pos < |d.blocks| && b.pos < |d.blocks|
    requires a.slot < d.blockLen && b.slot < d.blockLen
    ensures LetterAtSlot(d, SwapAt(d, c, a, b), b.pos, b.slot) == LetterAtSlot(d, c, a.pos, a.slot)
  {
    var m := d.blockLen;
    var r := SwapAt(d, c, a, b);
    var sideA := Side(d, c, a.pos, a.slot);
    assert r.pieces[b.pos] == c.pieces[a.pos];
    assert r.oris[b.pos] == Wrap(b.slot - sideA, m);
  }

  /** On different positions, the letter that was at `b` shows at `a` after the swap. */
  lemma SwapShowsSecond(d: SchemeData, c: Config, a: Slot, b: Slot)
    requires Consistent(d) && ValidConfig(d, c) && a.pos < |d.blocks| && b.pos < |d.blocks|
    requires a.slot < d.blockLen && b.slot < d.blockLen
    requires a.pos != b.pos
    ensures LetterAtSlot(d, SwapAt(d, c, a, b), a.pos, a.slot) == LetterAtSlot(d, c, b.pos, b.slot)
  {
    var m := d.blockLen;
    var r := SwapAt(d, c, a, b);
    var sideB := Side(d, c, b.pos, b.slot);
    assert r.pieces[a.pos] == c.pieces[b.pos];
    assert r.oris[a.pos] == Wrap(a.slot - sideB, m);
  }

  /** Positions other than the two swapped ones show what they showed before. */
  lemma SwapLeavesOthers(d: SchemeData, c: Config, a: Slot, b: Slot)
    requires Consistent(d) && ValidConfig(d, c) && a.pos < |d.blocks| && b.pos < |d.blocks|
    requires a.slot < d.blockLen && b.slot < d.blockLen
    ensures forall p: nat, s: nat :: p < |d.blocks| && s < d.blockLen && p != a.pos && p != b.pos ==>
      LetterAtSlot(d, SwapAt(d, c, a, b), p, s) == LetterAtSlot(d, c, p, s)
  {
    var r := SwapAt(d, c, a, b);
    forall p: nat, s: nat | p < |d.blocks| && s < d.blockLen && p != a.pos && p != b.pos
      ensures LetterAtSlot(d, r, p, s) == LetterAtSlot(d, c, p, s)
    {
      assert r.pieces[p] == c.pieces[p] && r.oris[p] == c.oris[p];
    }
  }

  /** A slot shows its own letter only when its position holds its own piece, untwisted. */
  lemma ShowsOwnLetter(d: SchemeData, c: Config, pos: nat, slot: nat)
    requires Consistent(d) && ValidConfig(d, c) && pos < |d.blocks| && slot < d.blockLen
    requires LetterAtSlot(d, c, pos, slot) == d.blocks[pos][slot]
    ensures c.pieces[pos] == pos && c.oris[pos] == 0
  {
    var side := Side(d, c, pos, slot);
    assert d.refPos[d.blocks[c.pieces[pos]][side]] == Slot(c.pieces[pos], side);
    assert d.refPos[d.blocks[pos][slot]] == Slot(pos, slot);
  }

  /** The letter shown at `(pos, slot)` belongs to the piece sitting at `pos`. */
  lemma ShownOnPiece(d: SchemeData, c: Config, pos: nat, slot: nat)
    requires Consistent(d) && ValidConfig(d, c) && pos < |d.blocks| && slot < d.blockLen
    ensures d.refPos[LetterAtSlot(d, c, pos, slot)].pos == c.pieces[pos]
  {
    var side := Side(d, c, pos, slot);
    assert d.refPos[d.blocks[c.pieces[pos]][side]] == Slot(c.pieces[pos], side);
  }

  /** Turning back: the side facing `s` after turning by `(s - t) mod m` is `t`, and re-turning a piece restores its orientation. */
  lemma UnturnArithmetic(s: int, t: int, o: int, m: int)
    requires m > 0 && 0 <= s < m && 0 <= t < m && 0 <= o < m
    ensures Facing(s, Wrap(s - t, m), m) == t
    ensures Wrap(s - Facing(s, o, m), m) == o
  {
  }

  /**
   * Swapping the same two letters twice gives back the state, when they sit
   * on different pieces (two stickers of one piece: see `SwapTwist`).
   */
  lemma SwapTwiceRestores(d: SchemeData, c: Config, x: char, y: char)
    requires Consistent(d) && ValidConfig(d, c)
    requires x in d.refPos && y in d.refPos && d.refPos[x].pos != d.refPos[y].pos
    ensures SwapResult(d, c, x, y).Some?
    ensures SwapResult(d, SwapResult(d, c, x, y).value, x, y) == Some(c)
  {
    LocateExact(d, c, x);
    LocateExact(d, c, y);
    var a := Locate(d, c, x).value;
    var b := Locate(d, c, y).value;
    ShownOnPiece(d, c, a.pos, a.slot);
    ShownOnPiece(d, c, b.pos, b.slot);
    hide LetterAtSlot, SwapAt, Locate;
    var r := SwapAt(d, c, a, b);
    assert SwapResult(d, c, x, y) == Some(r);
    SwapShowsFirst(d, c, a, b);
    SwapShowsSecond(d, c, a, b);
    LocateShown(d, r, x, b.pos, b.slot);
    LocateShown(d, r, y, a.pos, a.slot);
    assert SwapResult(d, r, x, y) == Some(SwapAt(d, r, b, a));
    SwapAtTwice(d, c, a, b);
  }

  /** Swapping back the two slots of a swap on different positions restores the state. */
  lemma SwapAtTwice(d: SchemeData, c: Config, a: Slot, b: Slot)
    requires Consistent(d) && ValidConfig(d, c) && a.pos < |d.blocks| && b.pos < |d.blocks|
    requires a.slot < d.blockLen && b.slot < d.blockLen && a.pos != b.pos
    ensures SwapAt(d, SwapAt(d, c, a, b), b, a) == c
  {
    var m := d.blockLen;
    var r := SwapAt(d, c, a, b);
    var t := SwapAt(d, r, b, a);
    SwapAtOris(d, c, a, b);
    SwapAtOris(d, r, b, a);
    var sideA := Side(d, c, a.pos, a.slot);
    var sideB := Side(d, c, b.pos, b.slot);
    UnturnArithmetic(b.slot, sideA, c.oris[b.pos], m);
    UnturnArithmetic(a.slot, sideB, c.oris[a.pos], m);
    assert Side(d, r, b.pos, b.slot) == sideA;
    assert Side(d, r, a.pos, a.slot) == sideB;
    assert t.pieces == c.pieces;
    assert t.oris == c.oris;
  }

  /**
   * Two stickers of one piece: `x` still lands on `y`'s slot, but `y` lands
   * on `x`'s slot only when twice the slot distance is a multiple of
   * `blockLen` (never on a 3-sticker corner); the swap is then a twist.
   */
  lemma SwapOnOnePiece(d: SchemeData, c: Config, x: char, y: char)
    requires Consistent(d) && ValidConfig(d, c)
    requires Locate(d, c, x).Some? && Locate(d, c, y).Some?
    requires Locate(d, c, x).value.pos == Locate(d, c, y).value.pos
    ensures SwapResult(d, c, x, y).Some?
    ensures var a := Locate(d, c, x).value;
      var b := Locate(d, c, y).value;
      LetterAtSlot(d, SwapResult(d, c, x, y).value, a.pos, a.slot) == y
      <==> (2 * (a.slot - b.slot)) % d.blockLen == 0
  {
    hide LetterAtSlot, SwapAt;
    var a := Locate(d, c, x).value;
    var b := Locate(d, c, y).value;
    assert SwapResult(d, c, x, y) == Some(SwapAt(d, c, a, b));
    SwapTwist(d, c, a, b);
  }

  lemma SwapTwist(d: SchemeData, c: Config, a: Slot, b: Slot)
    requires Consistent(d) && ValidConfig(d, c) && a.pos < |d.blocks| && a.pos == b.pos
    requires a.slot < d.blockLen && b.slot < d.blockLen
    ensures LetterAtSlot(d, SwapAt(d, c, a, b), a.pos, a.slot) == LetterAtSlot(d, c, b.pos, b.slot)
      <==> (2 * (a.slot - b.slot)) % d.blockLen == 0
  {
    hide LetterAtSlot;
    var r := SwapAt(d, c, a, b);
    TwistSides(d, c, a, b);
    MultipleInRange(2 * (a.slot - b.slot), d.blockLen);
    ShowsSide(d, r, a.pos, a.slot);
    ShowsSide(d, c, b.pos, b.slot);
    SideLetters(d, c.pieces[a.pos], Side(d, r, a.pos, a.slot), Side(d, c, b.pos, b.slot));
  }

  /** On one piece, the side facing `a` after the swap is the one that faced `b` iff `2(a - b)` is a multiple of `blockLen`. */
  lemma TwistSides(d: SchemeData, c: Config, a: Slot, b: Slot)
    requires Consistent(d) && ValidConfig(d, c) && a.pos < |d.blocks| && a.pos == b.pos
    requires a.slot < d.blockLen && b.slot < d.blockLen
    ensures SwapAt(d, c, a, b).pieces[a.pos] == c.pieces[a.pos]
    ensures Side(d, SwapAt(d, c, a, b), a.pos, a.slot) == Side(d, c, b.pos, b.slot)
      <==> TwiceApart(a.slot, b.slot, d.blockLen)
  {
    hide SwapAt, Facing, Wrap;
    var m := d.blockLen;
    var o := c.oris[a.pos];
    var r := SwapAt(d, c, a, b);
    SwapAtOris(d, c, a, b);
    var newO := r.oris[a.pos];
    assert newO == Wrap(b.slot - Facing(a.slot, o, m), m);
    TwistArithmetic(a.slot, b.slot, o, m);
  }

  lemma ShowsSide(d: SchemeData, c: Config, pos: nat, slot: nat)
    requires Consistent(d) && ValidConfig(d, c) && pos < |d.blocks| && slot < d.blockLen
    ensures LetterAtSlot(d, c, pos, slot) == d.blocks[c.pieces[pos]][Side(d, c, pos, slot)]
  {
  }

  /** The letters of one block are distinct. */
  lemma SideLetters(d: SchemeData, piece: nat, i: nat, j: nat)
    requires Consistent(d) && piece < |d.blocks| && i < d.blockLen && j < d.blockLen
    ensures d.blocks[piece][i] == d.blocks[piece][j] <==> i == j
  {
    assert d.refPos[d.blocks[piece][i]] == Slot(piece, i);
    assert d.refPos[d.blocks[piece][j]] == Slot(piece, j);
  }

  /**
   * Turning a piece with orientation `o` so that side `(sa - o) mod m` shows at
   * `sb` moves side `(sb - o) mod m` to `sa` iff `2(sa - sb)` is a multiple of `m`.
   */
  lemma TwistArithmetic(sa: int, sb: int, o: int, m: int)
    requires m > 0 && 0 <= sa < m && 0 <= sb < m && 0 <= o < m
    ensures Facing(sa, Wrap(sb - Facing(sa, o, m), m), m) == Facing(sb, o, m) <==> TwiceApart(sa, sb, m)
  {
  }

  /** `2(sa - sb)` is `-m`, `0` or `m`: for slots below `m`, exactly when it is a multiple of `m`. */
  predicate TwiceApart(sa: int, sb: int, m: int) {
    2 * (sa - sb) == -m || sa == sb || 2 * (sa - sb) == m
  }

  /** From solved, the trace from the buffer is the buffer alone. */
  lemma SolvedTrace(d: SchemeData, buffer: char)
    requires Consistent(d) && buffer in d.refPos
    ensures ValidConfig(d, SolvedConfig(|d.blocks|))
    ensures TraceOf(d, SolvedConfig(|d.blocks|), buffer, 200) == Ok([buffer, buffer])
  {
    SolvedHomeIsIdentity(d, buffer);
    assert TraceRest(d, SolvedConfig(|d.blocks|), buffer, buffer, 200) == [buffer];
    assert [buffer] + [buffer] == [buffer, buffer];
  }

  /** `threeCycle(a, b, c)`: `swapStickers(b, c)` and then `swapStickers(a, b)`. */
  function ThreeCycleResult(d: SchemeData, c: Config, a: char, b: char, x: char): (r: Option<Config>)
    requires Consistent(d) && ValidConfig(d, c)
    ensures r.Some? ==> ValidConfig(d, r.value)
    ensures r.Some? <==> a in d.refPos && b in d.refPos && x in d.refPos
  {
    SwapStickersEffect(d, c, b, x);
    match SwapResult(d, c, b, x)
    case None => None
    case Some(c1) =>
      SwapStickersEffect(d, c1, a, b);
      SwapResult(d, c1, a, b)
  }

  /** Both letters of every comm are scheme letters. */
  ghost predicate CommLettersIn(d: SchemeData, comms: seq<(char, char)>) {
    forall i :: 0 <= i < |comms| ==> comms[i].0 in d.refPos && comms[i].1 in d.refPos
  }

  lemma CommLettersInCons(d: SchemeData, comms: seq<(char, char)>)
    requires |comms| > 0
    ensures CommLettersIn(d, comms) <==>
      comms[0].0 in d.refPos && comms[0].1 in d.refPos && CommLettersIn(d, comms[1..])
  {
    assert forall i :: 1 <= i < |comms| ==> comms[i] == comms[1..][i - 1];
  }

  /** The trace ends as soon as the buffer comes back. */
  lemma TraceLast(d: SchemeData, c: Config, buffer: char, cur: char, fuel: nat)
    requires Consistent(d) && ValidConfig(d, c) && cur in d.refPos && fuel > 0
    requires Home(d, c, cur) == buffer
    ensures TraceRest(d, c, buffer, cur, fuel) == [buffer]
  {
  }

  /** One more step of the trace moves one letter from the rest of the trace onto its front. */
  lemma TraceStep(d: SchemeData, c: Config, buffer: char, cur: char, fuel: nat,
                  front: seq<char>, whole: seq<char>)
    requires Consistent(d) && ValidConfig(d, c) && cur in d.refPos && fuel > 0
    requires Home(d, c, cur) != buffer
    requires whole == front + TraceRest(d, c, buffer, cur, fuel)
    ensures whole == (front + [Home(d, c, cur)]) + TraceRest(d, c, buffer, Home(d, c, cur), fuel - 1)
  {
    var next := Home(d, c, cur);
    assert TraceRest(d, c, buffer, cur, fuel) == [next] + TraceRest(d, c, buffer, next, fuel - 1);
  }

  /** `applyCommSequence`, from a given state: each comm `(x, y)` is `threeCycle(buffer, x, y)`. */
  function ApplyComms(d: SchemeData, c: Config, buffer: char, comms: seq<(char, char)>): (r: Option<Config>)
    requires Consistent(d) && ValidConfig(d, c)
    ensures r.Some? ==> ValidConfig(d, r.value)
    ensures r.Some? <==> (comms == [] || buffer in d.refPos) && CommLettersIn(d, comms)
    decreases |comms|
  {
    if |comms| == 0 then Some(c)
    else
      match ThreeCycleResult(d, c, buffer, comms[0].0, comms[0].1)
      case None => None
      case Some(c1) =>
        CommLettersInCons(d, comms);
        ApplyComms(d, c1, buffer, comms[1..])
  }

  /** Applying a non-empty sequence is applying its first comm, then the rest. */
  lemma ApplyCommsCons(d: SchemeData, c: Config, buffer: char, comms: seq<(char, char)>)
    requires Consistent(d) && ValidConfig(d, c) && |comms| > 0
    ensures ApplyComms(d, c, buffer, comms) ==
      match ThreeCycleResult(d, c, buffer, comms[0].0, comms[0].1)
      case None => None
      case Some(c1) => ApplyComms(d, c1, buffer, comms[1..])
  {
  }

  lemma ApplyCommsNil(d: SchemeData, c: Config, buffer: char)
    requires Consistent(d) && ValidConfig(d, c)
    ensures ApplyComms(d, c, buffer, []) == Some(c)
  {
  }

  /** `letterAtHome` for a scheme letter: what is visible in its home slot. */
  function Home(d: SchemeData, c: Config, letter: char): (r: char)
    requires Consistent(d) && ValidConfig(d, c) && letter in d.refPos
    ensures r in d.refPos
  {
    LetterAtSlot(d, c, d.refPos[letter].pos, d.refPos[letter].slot)
  }

  /** `letterAtHome`; None where the source throws for a letter outside the scheme. */
  function LetterAtHome(d: SchemeData, c: Config, letter: char): (r: Option<char>)
    requires Consistent(d) && ValidConfig(d, c)
    ensures r.Some? <==> letter in d.refPos
    ensures r.Some? ==> r.value in d.refPos
  {
    if letter in d.refPos then Some(Home(d, c, letter)) else None
  }

  /** The successor map is the identity on a solved puzzle. */
  lemma SolvedHomeIsIdentity(d: SchemeData, letter: char)
    requires Consistent(d) && letter in d.refPos
    ensures ValidConfig(d, SolvedConfig(|d.blocks|))
    ensures Home(d, SolvedConfig(|d.blocks|), letter) == letter
  {
    SolvedShowsBlocks(d, d.refPos[letter].pos, d.refPos[letter].slot);
  }

  /** The successor map is injective on the scheme letters, so it is a bijection of them. */
  lemma HomeInjective(d: SchemeData, c: Config, x: char, y: char)
    requires Consistent(d) && ValidConfig(d, c) && x in d.refPos && y in d.refPos
    ensures Home(d, c, x) == Home(d, c, y) <==> x == y
  {
    if Home(d, c, x) == Home(d, c, y) {
      ShownOnce(d, c, d.refPos[x].pos, d.refPos[x].slot, d.refPos[y].pos, d.refPos[y].slot);
    }
  }

  /** The letters after `cur` in a trace with `fuel` steps left. */
  function TraceRest(d: SchemeData, c: Config, buffer: char, cur: char, fuel: nat): (r: seq<char>)
    requires Consistent(d) && ValidConfig(d, c) && cur in d.refPos
    ensures |r| <= fuel
    ensures |r| > 0 ==> r[0] == Home(d, c, cur)
    ensures forall i :: 0 <= i < |r| ==> r[i] in d.refPos
    ensures forall i :: 1 <= i < |r| ==> r[i] == Home(d, c, r[i - 1])
    ensures forall i :: 0 <= i < |r| - 1 ==> r[i] != buffer
    ensures |r| == fuel || (|r| > 0 && r[|r| - 1] == buffer)
    decreases fuel
  {
    if fuel == 0 then []
    else
      var next := Home(d, c, cur);
      if next == buffer then [next]
      else [next] + TraceRest(d, c, buffer, next, fuel - 1)
  }

  /**
   * `traceFromBuffer`: the buffer, then the letter at the home of the
   * previous one, until the buffer comes back or `maxSteps` steps are taken.
   */
  function TraceOf(d: SchemeData, c: Config, buffer: char, maxSteps: int): (r: Result<seq<char>, SimError>)
    requires Consistent(d) && ValidConfig(d, c)
    ensures r.Err? <==> maxSteps > 0 && buffer !in d.refPos
    ensures r.Ok? ==> |r.value| >= 1 && r.value[0] == buffer
    ensures r.Ok? ==> |r.value| <= (if maxSteps < 0 then 0 else maxSteps) + 1
    ensures r.Ok? ==> forall i :: 0 <= i < |r.value| - 1 ==>
      r.value[i] in d.refPos && r.value[i + 1] == Home(d, c, r.value[i])
    ensures r.Ok? ==> forall i :: 1 <= i < |r.value| - 1 ==> r.value[i] != buffer
    ensures r.Ok? ==> (|r.value| == (if maxSteps < 0 then 0 else maxSteps) + 1
      || (|r.value| > 1 && r.value[|r.value| - 1] == buffer))
  {
    if maxSteps <= 0 then Ok([buffer])
    else if buffer !in d.refPos then Err(NotInScheme(buffer))
    else Ok([buffer] + TraceRest(d, c, buffer, buffer, maxSteps))
  }

  /**
   * `threeCycle(a, b, x)` on three stickers of three different positions
   * is the sticker 3-cycle: `b` moves to `a`'s slot, `x` to `b`'s and `a`
   * to `x`'s; every other position is untouched.
   */
  lemma ThreeCycleEffect(d: SchemeData, c: Config, a: char, b: char, x: char, sa: Slot, sb: Slot, sx: Slot)
    requires Consistent(d) && ValidConfig(d, c)
    requires sa.pos < |d.blocks| && sb.pos < |d.blocks| && sx.pos < |d.blocks|
    requires sa.slot < d.blockLen && sb.slot < d.blockLen && sx.slot < d.blockLen
    requires LetterAtSlot(d, c, sa.pos, sa.slot) == a
    requires LetterAtSlot(d, c, sb.pos, sb.slot) == b
    requires LetterAtSlot(d, c, sx.pos, sx.slot) == x
    requires sa.pos != sb.pos && sa.pos != sx.pos && sb.pos != sx.pos
    ensures ThreeCycleResult(d, c, a, b, x).Some?
    ensures var r := ThreeCycleResult(d, c, a, b, x).value;
      && LetterAtSlot(d, r, sa.pos, sa.slot) == b
      && LetterAtSlot(d, r, sb.pos, sb.slot) == x
      && LetterAtSlot(d, r, sx.pos, sx.slot) == a
      && forall p: nat, s: nat :: p < |d.blocks| && s < d.blockLen && p != sa.pos && p != sb.pos && p != sx.pos ==>
           LetterAtSlot(d, r, p, s) == LetterAtSlot(d, c, p, s)
  {
    hide LetterAtSlot, SwapAt;
    LocateShown(d, c, b, sb.pos, sb.slot);
    LocateShown(d, c, x, sx.pos, sx.slot);
    SwapStickersEffect(d, c, b, x);
    var c1 := SwapResult(d, c, b, x).value;
    assert LetterAtSlot(d, c1, sx.pos, sx.slot) == b;
    assert LetterAtSlot(d, c1, sa.pos, sa.slot) == a;
    LocateShown(d, c1, a, sa.pos, sa.slot);
    LocateShown(d, c1, b, sx.pos, sx.slot);
    SwapStickersEffect(d, c1, a, b);
    assert ThreeCycleResult(d, c, a, b, x) == SwapResult(d, c1, a, b);
  }

  /**
   * One comm `(x, y)` from solved, with the buffer and both letters on three
   * different pieces, makes the buffer's home show `x`, `x`'s home show `y`
   * and `y`'s home show the buffer, and leaves every other piece alone: the
   * trace from the buffer is `[buffer, x, y, buffer]`.
   */
  lemma OneCommFromSolved(d: SchemeData, buffer: char, x: char, y: char, maxSteps: int)
    requires Consistent(d) && buffer in d.refPos && x in d.refPos && y in d.refPos
    requires d.refPos[buffer].pos != d.refPos[x].pos && d.refPos[buffer].pos != d.refPos[y].pos
    requires d.refPos[x].pos != d.refPos[y].pos
    requires maxSteps >= 3
    ensures ValidConfig(d, SolvedConfig(|d.blocks|))
    ensures ThreeCycleResult(d, SolvedConfig(|d.blocks|), buffer, x, y).Some?
    ensures var c2 := ThreeCycleResult(d, SolvedConfig(|d.blocks|), buffer, x, y).value;
      && Home(d, c2, buffer) == x && Home(d, c2, x) == y && Home(d, c2, y) == buffer
      && (forall ch :: ch in d.refPos && d.refPos[ch].pos != d.refPos[buffer].pos
            && d.refPos[ch].pos != d.refPos[x].pos && d.refPos[ch].pos != d.refPos[y].pos
            ==> Home(d, c2, ch) == ch)
      && TraceOf(d, c2, buffer, maxSteps) == Ok([buffer, x, y, buffer])
  {
    hide LetterAtSlot;
    var c0 := SolvedConfig(|d.blocks|);
    var hb, hx, hy := d.refPos[buffer], d.refPos[x], d.refPos[y];
    SolvedShowsBlocks(d, hb.pos, hb.slot);
    SolvedShowsBlocks(d, hx.pos, hx.slot);
    SolvedShowsBlocks(d, hy.pos, hy.slot);
    ThreeCycleEffect(d, c0, buffer, x, y, hb, hx, hy);
    var c2 := ThreeCycleResult(d, c0, buffer, x, y).value;
    FixedElsewhere(d, c2, hb.pos, hx.pos, hy.pos);
    TraceOfThreeCycle(d, c2, buffer, x, y, maxSteps);
  }

  /** A state that shows what the solved state shows outside three positions maps every letter there to itself. */
  lemma FixedElsewhere(d: SchemeData, c: Config, p1: nat, p2: nat, p3: nat)
    requires Consistent(d) && ValidConfig(d, c) && ValidConfig(d, SolvedConfig(|d.blocks|))
    requires forall p: nat, s: nat :: p < |d.blocks| && s < d.blockLen && p != p1 && p != p2 && p != p3 ==>
      LetterAtSlot(d, c, p, s) == LetterAtSlot(d, SolvedConfig(|d.blocks|), p, s)
    ensures forall ch :: (ch in d.refPos && d.refPos[ch].pos != p1 && d.refPos[ch].pos != p2
      && d.refPos[ch].pos != p3) ==> Home(d, c, ch) == ch
  {
    hide LetterAtSlot;
    forall ch | ch in d.refPos && d.refPos[ch].pos != p1 && d.refPos[ch].pos != p2 && d.refPos[ch].pos != p3
      ensures Home(d, c, ch) == ch
    {
      var h := d.refPos[ch];
      SolvedShowsBlocks(d, h.pos, h.slot);
      assert Home(d, c, ch) == LetterAtSlot(d, c, h.pos, h.slot);
    }
  }

  /** A successor map that sends the buffer to `x`, `x` to `y` and `y` back gives the trace `[buffer, x, y, buffer]`. */
  lemma TraceOfThreeCycle(d: SchemeData, c: Config, buffer: char, x: char, y: char, maxSteps: int)
    requires Consistent(d) && ValidConfig(d, c) && buffer in d.refPos && x in d.refPos && y in d.refPos
    requires Home(d, c, buffer) == x && Home(d, c, x) == y && Home(d, c, y) == buffer
    requires x != buffer && y != buffer && maxSteps >= 3
    ensures TraceOf(d, c, buffer, maxSteps) == Ok([buffer, x, y, buffer])
  {
    var rest := TraceRest(d, c, buffer, buffer, maxSteps);
    assert rest == [x] + TraceRest(d, c, buffer, x, maxSteps - 1);
    assert TraceRest(d, c, buffer, x, maxSteps - 1) == [y] + TraceRest(d, c, buffer, y, maxSteps - 2);
    assert TraceRest(d, c, buffer, y, maxSteps - 2) == [buffer];
    assert rest == [x, y, buffer];
    assert [buffer] + rest == [buffer, x, y, buffer];
  }

  /** Applying `xs + ys` is applying `xs`, then `ys` to the result. */
  lemma {:induction false} ApplyCommsAppend(d: SchemeData, c: Config, buffer: char, xs: seq<(char, char)>, ys: seq<(char, char)>)
    requires Consistent(d) && ValidConfig(d, c)
    ensures ApplyComms(d, c, buffer, xs + ys) ==
      match ApplyComms(d, c, buffer, xs)
      case None => None
      case Some(c1) => ApplyComms(d, c1, buffer, ys)
    decreases |xs|
  {
    if |xs| == 0 {
      assert xs + ys == ys;
    } else {
      assert (xs + ys)[0] == xs[0] && (xs + ys)[1..] == xs[1..] + ys;
      match ThreeCycleResult(d, c, buffer, xs[0].0, xs[0].1)
      case None =>
      case Some(c1) => ApplyCommsAppend(d, c1, buffer, xs[1..], ys);
    }
  }

  /** Two sequences applied one after the other reach what their concatenation reaches. */
  lemma ApplyBoth(d: SchemeData, c: Config, buffer: char, xs: seq<(char, char)>, ys: seq<(char, char)>, c1: Config, c2: Config)
    requires Consistent(d) && ValidConfig(d, c) && ValidConfig(d, c1)
    requires ApplyComms(d, c, buffer, xs) == Some(c1) && ApplyComms(d, c1, buffer, ys) == Some(c2)
    ensures ApplyComms(d, c, buffer, xs + ys) == Some(c2)
  {
    ApplyCommsAppend(d, c, buffer, xs, ys);
  }

  /** Every position outside `moved` holds its own piece, untwisted. */
  ghost predicate SolvedOutside(d: SchemeData, c: Config, moved: set<int>) {
    && |c.pieces| == |d.blocks| && |c.oris| == |d.blocks|
    && forall p :: 0 <= p < |d.blocks| && p !in moved ==> c.pieces[p] == p && c.oris[p] == 0
  }

  /** A position holding its own piece, untwisted, shows its own block. */
  lemma SolvedPositionShows(d: SchemeData, c: Config, pos: nat, slot: nat)
    requires Consistent(d) && ValidConfig(d, c) && pos < |d.blocks| && slot < d.blockLen
    requires c.pieces[pos] == pos && c.oris[pos] == 0
    ensures LetterAtSlot(d, c, pos, slot) == d.blocks[pos][slot]
  {
  }

  lemma ConfigLengths(d: SchemeData, c: Config)
    requires ValidConfig(d, c)
    ensures |c.pieces| == |d.blocks| && |c.oris| == |d.blocks|
  {
  }

  /** A letter that shows at its own home puts its home position back in order. */
  lemma HomeSolved(d: SchemeData, c: Config, t: char)
    requires Consistent(d) && ValidConfig(d, c) && t in d.refPos
    requires LetterAtSlot(d, c, d.refPos[t].pos, d.refPos[t].slot) == t
    ensures c.pieces[d.refPos[t].pos] == d.refPos[t].pos && c.oris[d.refPos[t].pos] == 0
  {
    ShowsOwnLetter(d, c, d.refPos[t].pos, d.refPos[t].slot);
  }

  /** A solved position that shows the same letters in another state is solved there too. */
  lemma StillSolved(d: SchemeData, c: Config, c': Config, p: nat)
    requires Consistent(d) && ValidConfig(d, c) && ValidConfig(d, c') && p < |d.blocks|
    requires c.pieces[p] == p && c.oris[p] == 0
    requires LetterAtSlot(d, c', p, 0) == LetterAtSlot(d, c, p, 0)
    ensures c'.pieces[p] == p && c'.oris[p] == 0
  {
    SolvedPositionShows(d, c, p, 0);
    ShowsOwnLetter(d, c', p, 0);
  }

  lemma SolvedIsSolvedOutside(d: SchemeData, moved: set<int>)
    ensures SolvedOutside(d, SolvedConfig(|d.blocks|), moved)
  {
  }

  /** Solved at every position is the solved state. */
  lemma SolvedEverywhere(d: SchemeData, c: Config)
    requires SolvedOutside(d, c, {})
    ensures c == SolvedConfig(|d.blocks|)
  {
    assert c.pieces == SolvedConfig(|d.blocks|).pieces;
    assert c.oris == SolvedConfig(|d.blocks|).oris;
  }

  /** A letter on a piece of `moved` is visible at a position of `moved`. */
  lemma LocatedWithin(d: SchemeData, c: Config, x: char, moved: set<int>)
    requires Consistent(d) && ValidConfig(d, c) && SolvedOutside(d, c, moved)
    requires x in d.refPos && d.refPos[x].pos in moved
    ensures Locate(d, c, x).Some? && Locate(d, c, x).value.pos in moved
  {
    LocateExact(d, c, x);
    var a := Locate(d, c, x).value;
    ShownOnPiece(d, c, a.pos, a.slot);
  }

  /** A swap of two letters on pieces of `moved` leaves every position outside `moved` as it was. */
  lemma SwapKeepsSolvedOutside(d: SchemeData, c: Config, x: char, y: char, moved: set<int>)
    requires Consistent(d) && ValidConfig(d, c) && SolvedOutside(d, c, moved)
    requires x in d.refPos && y in d.refPos && d.refPos[x].pos in moved && d.refPos[y].pos in moved
    ensures SwapResult(d, c, x, y).Some? && SolvedOutside(d, SwapResult(d, c, x, y).value, moved)
  {
    LocatedWithin(d, c, x, moved);
    LocatedWithin(d, c, y, moved);
  }

  lemma ThreeCycleKeepsSolvedOutside(d: SchemeData, c: Config, a: char, b: char, x: char, moved: set<int>)
    requires Consistent(d) && ValidConfig(d, c) && SolvedOutside(d, c, moved)
    requires a in d.refPos && b in d.refPos && x in d.refPos
    requires d.refPos[a].pos in moved && d.refPos[b].pos in moved && d.refPos[x].pos in moved
    ensures ThreeCycleResult(d, c, a, b, x).Some? && SolvedOutside(d, ThreeCycleResult(d, c, a, b, x).value, moved)
  {
    SwapKeepsSolvedOutside(d, c, b, x, moved);
    SwapKeepsSolvedOutside(d, SwapResult(d, c, b, x).value, a, b, moved);
  }

  /** Both letters of every comm lie on pieces of `moved`. */
  ghost predicate CommsWithin(d: SchemeData, comms: seq<(char, char)>, moved: set<int>) {
    forall i :: 0 <= i < |comms| ==>
      && comms[i].0 in d.refPos && comms[i].1 in d.refPos
      && d.refPos[comms[i].0].pos in moved && d.refPos[comms[i].1].pos in moved
  }

  /** Comms on the buffer and on pieces of `moved` leave every other position as it was. */
  lemma {:induction false} ApplyKeepsSolvedOutside(d: SchemeData, c: Config, buffer: char, comms: seq<(char, char)>, moved: set<int>)
    requires Consistent(d) && ValidConfig(d, c) && SolvedOutside(d, c, moved)
    requires buffer in d.refPos && d.refPos[buffer].pos in moved && CommsWithin(d, comms, moved)
    ensures ApplyComms(d, c, buffer, comms).Some?
    ensures SolvedOutside(d, ApplyComms(d, c, buffer, comms).value, moved)
    decreases |comms|
  {
    hide LetterAtSlot, SwapAt, SwapResult, Locate, ValidConfig;
    if |comms| > 0 {
      ThreeCycleKeepsSolvedOutside(d, c, buffer, comms[0].0, comms[0].1, moved);
      var c1 := ThreeCycleResult(d, c, buffer, comms[0].0, comms[0].1).value;
      assert CommsWithin(d, comms[1..], moved) by {
        assert forall i :: 1 <= i < |comms| ==> comms[1..][i - 1] == comms[i];
      }
      ApplyKeepsSolvedOutside(d, c1, buffer, comms[1..], moved);
    }
  }

  /** The letter at a letter's home belongs to the piece sitting at that home position. */
  lemma HomeOnPiece(d: SchemeData, c: Config, t: char)
    requires Consistent(d) && ValidConfig(d, c) && t in d.refPos
    ensures d.refPos[Home(d, c, t)].pos == c.pieces[d.refPos[t].pos]
  {
    ShownOnPiece(d, c, d.refPos[t].pos, d.refPos[t].slot);
  }

  /** An orbit of length five of a one-to-one map visits five different points, or one point five times. */
  lemma FiveOrbit(f: seq<int>, q0: int, q1: int, q2: int, q3: int, q4: int)
    requires forall p, q :: 0 <= p < |f| && 0 <= q < |f| && f[p] == f[q] ==> p == q
    requires 0 <= q0 < |f| && 0 <= q1 < |f| && 0 <= q2 < |f| && 0 <= q3 < |f| && 0 <= q4 < |f|
    requires f[q0] == q1 && f[q1] == q2 && f[q2] == q3 && f[q3] == q4 && f[q4] == q0
    ensures (q0 == q1 == q2 == q3 == q4) ||
      (q0 != q1 && q0 != q2 && q0 != q3 && q0 != q4 && q1 != q2 && q1 != q3 && q1 != q4
       && q2 != q3 && q2 != q4 && q3 != q4)
  {
  }

  /**
   * Five letters that the successor map sends round in a cycle lie on five
   * different pieces or all on one piece: the pieces they lie on follow the
   * permutation `pieces`.
   */
  lemma FiveCyclePieces(d: SchemeData, c: Config, t0: char, t1: char, t2: char, t3: char, t4: char)
    requires Consistent(d) && ValidConfig(d, c)
    requires t0 in d.refPos && t1 in d.refPos && t2 in d.refPos && t3 in d.refPos && t4 in d.refPos
    requires Home(d, c, t0) == t1 && Home(d, c, t1) == t2 && Home(d, c, t2) == t3
    requires Home(d, c, t3) == t4 && Home(d, c, t4) == t0
    ensures var q0, q1, q2, q3, q4 := d.refPos[t0].pos, d.refPos[t1].pos, d.refPos[t2].pos, d.refPos[t3].pos, d.refPos[t4].pos;
      (q0 == q1 == q2 == q3 == q4) ||
      (q0 != q1 && q0 != q2 && q0 != q3 && q0 != q4 && q1 != q2 && q1 != q3 && q1 != q4
       && q2 != q3 && q2 != q4 && q3 != q4)
  {
    HomeOnPiece(d, c, t0);
    HomeOnPiece(d, c, t1);
    HomeOnPiece(d, c, t2);
    HomeOnPiece(d, c, t3);
    HomeOnPiece(d, c, t4);
    FiveOrbit(c.pieces, d.refPos[t0].pos, d.refPos[t1].pos, d.refPos[t2].pos, d.refPos[t3].pos, d.refPos[t4].pos);
  }

  /**
   * The cleanup comms `(t4, t3)` and `(t2, t1)` undo the five-cycle
   * buffer → t1 → t2 → t3 → t4 → buffer of stickers on five different
   * pieces: when every other position is solved, the puzzle is solved again.
   */
  lemma CloseFiveCycle(d: SchemeData, c: Config, buffer: char, t1: char, t2: char, t3: char, t4: char)
    requires Consistent(d) && ValidConfig(d, c)
    requires buffer in d.refPos && t1 in d.refPos && t2 in d.refPos && t3 in d.refPos && t4 in d.refPos
    requires Home(d, c, buffer) == t1 && Home(d, c, t1) == t2 && Home(d, c, t2) == t3
    requires Home(d, c, t3) == t4 && Home(d, c, t4) == buffer
    requires var q0, q1, q2, q3, q4 := d.refPos[buffer].pos, d.refPos[t1].pos, d.refPos[t2].pos, d.refPos[t3].pos, d.refPos[t4].pos;
      q0 != q1 && q0 != q2 && q0 != q3 && q0 != q4 && q1 != q2 && q1 != q3 && q1 != q4
      && q2 != q3 && q2 != q4 && q3 != q4
    requires SolvedOutside(d, c, {d.refPos[buffer].pos, d.refPos[t1].pos, d.refPos[t2].pos, d.refPos[t3].pos, d.refPos[t4].pos})
    ensures ApplyComms(d, c, buffer, [(t4, t3), (t2, t1)]) == Some(SolvedConfig(|d.blocks|))
  {
    hide ValidConfig, LetterAtSlot, Home, ApplyComms;
    var c5 := CleanupComms(d, c, buffer, t1, t2, t3, t4);
    var hb, h1, h2, h3, h4 := d.refPos[buffer], d.refPos[t1], d.refPos[t2], d.refPos[t3], d.refPos[t4];
    var moved := {hb.pos, h1.pos, h2.pos, h3.pos, h4.pos};
    HomeSolved(d, c5, buffer);
    HomeSolved(d, c5, t1);
    HomeSolved(d, c5, t2);
    HomeSolved(d, c5, t3);
    HomeSolved(d, c5, t4);
    ConfigLengths(d, c5);
    forall p | 0 <= p < |d.blocks| && p !in moved ensures c5.pieces[p] == p && c5.oris[p] == 0 {
      StillSolved(d, c, c5, p);
    }
    SolvedEverywhere(d, c5);
  }

  /** The state after the two cleanup comms: each of the five letters shows at its own home; other positions are untouched. */
  lemma CleanupComms(d: SchemeData, c: Config, buffer: char, t1: char, t2: char, t3: char, t4: char) returns (c5: Config)
    requires Consistent(d) && ValidConfig(d, c)
    requires buffer in d.refPos && t1 in d.refPos && t2 in d.refPos && t3 in d.refPos && t4 in d.refPos
    requires Home(d, c, buffer) == t1 && Home(d, c, t1) == t2 && Home(d, c, t2) == t3
    requires Home(d, c, t3) == t4 && Home(d, c, t4) == buffer
    requires var q0, q1, q2, q3, q4 := d.refPos[buffer].pos, d.refPos[t1].pos, d.refPos[t2].pos, d.refPos[t3].pos, d.refPos[t4].pos;
      q0 != q1 && q0 != q2 && q0 != q3 && q0 != q4 && q1 != q2 && q1 != q3 && q1 != q4
      && q2 != q3 && q2 != q4 && q3 != q4
    ensures ValidConfig(d, c5)
    ensures ApplyComms(d, c, buffer, [(t4, t3), (t2, t1)]) == Some(c5)
    ensures forall t :: t in {buffer, t1, t2, t3, t4} ==> LetterAtSlot(d, c5, d.refPos[t].pos, d.refPos[t].slot) == t
    ensures forall p: nat, s: nat ::
      (p < |d.blocks| && s < d.blockLen
       && p !in {d.refPos[buffer].pos, d.refPos[t1].pos, d.refPos[t2].pos, d.refPos[t3].pos, d.refPos[t4].pos}) ==>
      LetterAtSlot(d, c5, p, s) == LetterAtSlot(d, c, p, s)
  {
    var hb, h1, h2, h3, h4 := d.refPos[buffer], d.refPos[t1], d.refPos[t2], d.refPos[t3], d.refPos[t4];
    hide SwapAt, SwapResult, Locate, ApplyComms, ThreeCycleResult, LetterAtSlot;
    ThreeCycleEffect(d, c, buffer, t4, t3, h4, h3, h2);
    var c4 := ThreeCycleResult(d, c, buffer, t4, t3).value;
    ThreeCycleEffect(d, c4, buffer, t2, t1, h2, h1, hb);
    c5 := ThreeCycleResult(d, c4, buffer, t2, t1).value;
    ApplyCommsCons(d, c, buffer, [(t4, t3), (t2, t1)]);
    assert [(t4, t3), (t2, t1)][1..] == [(t2, t1)];
    ApplyCommsCons(d, c4, buffer, [(t2, t1)]);
    assert [(t2, t1)][1..] == [];
    ApplyCommsNil(d, c5, buffer);
  }

  /**
   * The two arrays the source mutates in place, with the scheme they index.
   * `Valid()` keeps `pieces` a permutation and every orientation in range.
   */
  class State {
    const data: SchemeData
    const pieces: array<int>
    const oris: array<int>

    ghost predicate Valid()
      reads this, pieces, oris
    {
      && Consistent(data)
      && pieces != oris
      && ValidConfig(data, Config(pieces[..], oris[..]))
    }

    function Value(): Config
      reads this, pieces, oris
    {
      Config(pieces[..], oris[..])
    }

    /** `solvedState(data)`. */
    constructor Solved(d: SchemeData)
      requires Consistent(d)
      ensures Valid() && data == d
      ensures Value() == SolvedConfig(|d.blocks|)
      ensures fresh(pieces) && fresh(oris)
    {
      data := d;
      var n := |d.blocks|;
      pieces := new int[n](i => i);
      oris := new int[n](i => 0);
      new;
      assert pieces[..] == SolvedConfig(n).pieces;
      assert oris[..] == SolvedConfig(n).oris;
      SolvedIsValid(d);
    }

    /** `findCurrentSlot`: the nested row-major search. */
    method FindCurrentSlot(letter: char) returns (r: Option<Slot>)
      requires Valid()
      ensures r == Locate(data, Value(), letter)
    {
      hide LetterAtSlot;
      var c := Value();
      var n := pieces.Length;
      var pos := 0;
      while pos < n
        invariant 0 <= pos <= n
        invariant Locate(data, c, letter) == LocateFrom(data, c, letter, pos)
      {
        var found := SearchRow(c, letter, pos);
        if found.Some? {
          return Some(Slot(pos, found.value));
        }
        pos := pos + 1;
      }
      return None;
    }

    /** The inner loop of `findCurrentSlot` over the slots of row `pos`. */
    method SearchRow(c: Config, letter: char, pos: nat) returns (r: Option<nat>)
      requires Consistent(data) && ValidConfig(data, c) && pos < |data.blocks|
      ensures r == LocateInRow(data, c, letter, pos, 0)
    {
      var slot := 0;
      while slot < data.blockLen
        invariant 0 <= slot <= data.blockLen
        invariant LocateInRow(data, c, letter, pos, 0) == LocateInRow(data, c, letter, pos, slot)
      {
        if LetterAtSlot(data, c, pos, slot) == letter {
          return Some(slot);
        }
        slot := slot + 1;
      }
      return None;
    }

    /** `swapStickers(A, B)`: writes `pieces` and `oris` at the two positions found. */
    method SwapStickers(a: char, b: char) returns (ok: bool)
      requires Valid()
      modifies pieces, oris
      ensures Valid()
      ensures ok <==> SwapResult(data, old(Value()), a, b).Some?
      ensures Value() == if ok then SwapResult(data, old(Value()), a, b).value else old(Value())
    {
      var found := FindCurrentSlot(a);
      if found.None? {
        return false;
      }
      var at := found.value;
      found := FindCurrentSlot(b);
      if found.None? {
        return false;
      }
      var bt := found.value;
      WriteSwap(at, bt);
      ok := true;
    }

    /** The writes of `swapStickers` once both slots are found: trade the pieces and re-orient both. */
    method WriteSwap(at: Slot, bt: Slot)
      requires Valid() && at.pos < pieces.Length && bt.pos < pieces.Length
      requires at.slot < data.blockLen && bt.slot < data.blockLen
      modifies pieces, oris
      ensures Valid()
      ensures Value() == SwapAt(data, old(Value()), at, bt)
    {
      ghost var before := Value();
      var m := data.blockLen;
      var pieceA := pieces[at.pos];
      var pieceB := pieces[bt.pos];
      var oA := Wrap(oris[at.pos], m);
      var oB := Wrap(oris[bt.pos], m);
      var sideA := Wrap(at.slot - oA, m);
      var sideB := Wrap(bt.slot - oB, m);
      var newOA := Wrap(at.slot - sideB, m);
      var newOB := Wrap(bt.slot - sideA, m);
      pieces[at.pos] := pieceB;
      pieces[bt.pos] := pieceA;
      oris[at.pos] := newOA;
      oris[bt.pos] := newOB;
      assert pieces[..] == before.pieces[at.pos := pieceB][bt.pos := pieceA];
      assert oris[..] == before.oris[at.pos := newOA][bt.pos := newOB];
      SwapAtIs(data, before, at, bt, sideA, sideB, Value());
    }

    /** `threeCycle(a, b, c)`; a failing second swap leaves the first one applied, as in the source. */
    method ThreeCycle(a: char, b: char, x: char) returns (ok: bool)
      requires Valid()
      modifies pieces, oris
      ensures Valid()
      ensures ok <==> ThreeCycleResult(data, old(Value()), a, b, x).Some?
      ensures ok ==> Value() == ThreeCycleResult(data, old(Value()), a, b, x).value
      ensures !ok ==> (Value() ==
        if SwapResult(data, old(Value()), b, x).Some? then SwapResult(data, old(Value()), b, x).value else old(Value()))
    {
      ok := SwapStickers(b, x);
      if ok {
        ok := SwapStickers(a, b);
      }
    }

    /** `traceFromBuffer`: the step-counting loop that pushes onto `cycle`. */
    method TraceFromBuffer(buffer: char, maxSteps: int) returns (r: Result<seq<char>, SimError>)
      requires Valid()
      ensures r == TraceOf(data, Value(), buffer, maxSteps)
    {
      hide LetterAtSlot, Home, TraceRest;
      var cycle := [buffer];
      var current := buffer;
      var steps := 0;
      var c := Value();
      ghost var whole := if maxSteps > 0 && buffer in data.refPos
        then [buffer] + TraceRest(data, c, buffer, buffer, maxSteps) else [];
      while steps < maxSteps
        invariant 0 <= steps && (maxSteps >= 0 ==> steps <= maxSteps) && (maxSteps < 0 ==> steps == 0)
        invariant steps > 0 ==> current in data.refPos && current != buffer && buffer in data.refPos
        invariant current == buffer || current in data.refPos
        invariant maxSteps > 0 && buffer in data.refPos ==>
          whole == cycle + TraceRest(data, c, buffer, current, maxSteps - steps)
        invariant steps == 0 ==> cycle == [buffer] && current == buffer
      {
        var next := LetterAtHome(data, c, current);
        if next.None? {
          return Err(NotInScheme(current));
        }
        if next.value == buffer {
          TraceLast(data, c, buffer, current, maxSteps - steps);
          return Ok(cycle + [next.value]);
        }
        assert next.value == Home(data, c, current);
        TraceStep(data, c, buffer, current, maxSteps - steps, cycle, whole);
        cycle := cycle + [next.value];
        current := next.value;
        steps := steps + 1;
      }
      if maxSteps > 0 {
        assert steps == maxSteps;
        assert TraceRest(data, c, buffer, current, 0) == [];
        assert cycle + [] == cycle;
        assert cycle == [buffer] + TraceRest(data, c, buffer, buffer, maxSteps);
      } else {
        assert cycle == [buffer];
      }
      return Ok(cycle);
    }
  }

  /** `applyCommSequence`: a fresh solved state with the comms applied in order. */
  method ApplyCommSequence(d: SchemeData, comms: seq<(char, char)>, buffer: char) returns (s: State, ok: bool)
    requires Consistent(d)
    ensures fresh(s) && s.Valid() && s.data == d
    ensures ValidConfig(d, SolvedConfig(|d.blocks|))
    ensures ok <==> ApplyComms(d, SolvedConfig(|d.blocks|), buffer, comms).Some?
    ensures ok ==> s.Value() == ApplyComms(d, SolvedConfig(|d.blocks|), buffer, comms).value
  {
    hide LetterAtSlot, SwapAt, SwapResult, ThreeCycleResult, ApplyComms;
    SolvedIsValid(d);
    s := new State.Solved(d);
    var i := 0;
    while i < |comms|
      invariant 0 <= i <= |comms|
      invariant s.Valid() && s.data == d && fresh(s.pieces) && fresh(s.oris)
      invariant ApplyComms(d, SolvedConfig(|d.blocks|), buffer, comms)
        == ApplyComms(d, s.Value(), buffer, comms[i..])
    {
      ghost var before := s.Value();
      ok := s.ThreeCycle(buffer, comms[i].0, comms[i].1);
      ApplyCommsCons(d, before, buffer, comms[i..]);
      if !ok {
        return s, false;
      }
      assert comms[i..][1..] == comms[i + 1..];
      i := i + 1;
    }
    ApplyCommsNil(d, s.Value(), buffer);
    return s, true;
  }
}
