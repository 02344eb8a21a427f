/**
 * States as moves. A state `e` also stands for the moves that take the solved
 * state to it, and `Compose(c, e)` is the state those moves reach from `c`.
 * A sticker swap acts the same way from every state: it is composition, on
 * the right, with what the swap does to the solved state. Hence any sequence
 * of commutators does too, and a sequence that brings solved back to solved
 * still does so after it is rotated (the promise of `random_shift_comms`).
 */
module Composition {
  import opened Wrappers
  import opened Arith
  import opened Seqs
  import opened Scheme
  import opened Puzzle

  /** Two turns of a piece with `m` sides, added. */
  function AddTurns(x: int, y: int, m: int): (r: int)
    requires m > 0 && 0 <= x < m && 0 <= y < m
    ensures 0 <= r < m && (r == x + y || r == x + y - m)
  {
    Wrap(x + y - m, m)
  }

  /**
   * The moves of `e` made from `c`: position `p` receives the piece that `e`
   * brings to where `c`'s piece at `p` belongs, turned by both.
   */
  function Compose(d: SchemeData, c: Config, e: Config): (r: Config)
    requires Consistent(d) && ValidConfig(d, c) && ValidConfig(d, e)
    ensures ValidConfig(d, r)
    ensures forall p :: 0 <= p < |d.blocks| ==>
      r.pieces[p] == e.pieces[c.pieces[p]] && r.oris[p] == AddTurns(e.oris[c.pieces[p]], c.oris[p], d.blockLen)
  {
    var n := |d.blocks|;
    var r := Config(seq(n, p requires 0 <= p < n => e.pieces[c.pieces[p]]),
                    seq(n, p requires 0 <= p < n => AddTurns(e.oris[c.pieces[p]], c.oris[p], d.blockLen)));
    ComposeValid(d, c, e, r);
    r
  }

  lemma ComposeValid(d: SchemeData, c: Config, e: Config, r: Config)
    requires Consistent(d) && ValidConfig(d, c) && ValidConfig(d, e)
    requires |r.pieces| == |d.blocks| && |r.oris| == |d.blocks|
    requires forall p :: 0 <= p < |d.blocks| ==> r.pieces[p] == e.pieces[c.pieces[p]] && 0 <= r.oris[p] < d.blockLen
    ensures ValidConfig(d, r)
  {
    var n := |d.blocks|;
    forall k | 0 <= k < n ensures k in r.pieces {
      assert k in e.pieces;
      var q :| 0 <= q < n && e.pieces[q] == k;
      assert q in c.pieces;
      var p :| 0 <= p < n && c.pieces[p] == q;
      assert r.pieces[p] == k;
    }
  }

  /** Solved is the identity on both sides. */
  lemma ComposeSolved(d: SchemeData, c: Config)
    requires Consistent(d) && ValidConfig(d, c)
    ensures ValidConfig(d, SolvedConfig(|d.blocks|))
    ensures Compose(d, c, SolvedConfig(|d.blocks|)) == c
    ensures Compose(d, SolvedConfig(|d.blocks|), c) == c
  {
    var s := SolvedConfig(|d.blocks|);
    SolvedIsValid(d);
    SameConfig(d, c, Compose(d, c, s));
    SameConfig(d, c, Compose(d, s, c));
  }

  /** Two configurations that agree at every position are equal. */
  lemma SameConfig(d: SchemeData, c: Config, r: Config)
    requires |c.pieces| == |d.blocks| && |c.oris| == |d.blocks| && |r.pieces| == |d.blocks| && |r.oris| == |d.blocks|
    requires forall p :: 0 <= p < |d.blocks| ==> r.pieces[p] == c.pieces[p] && r.oris[p] == c.oris[p]
    ensures r == c
  {
    assert r.pieces == c.pieces && r.oris == c.oris;
  }

  /** Composition is associative. */
  lemma ComposeAssoc(d: SchemeData, c: Config, e: Config, f: Config)
    requires Consistent(d) && ValidConfig(d, c) && ValidConfig(d, e) && ValidConfig(d, f)
    ensures Compose(d, Compose(d, c, e), f) == Compose(d, c, Compose(d, e, f))
  {
    hide ValidConfig, Consistent;
    var n := |d.blocks|;
    var ce, ef := Compose(d, c, e), Compose(d, e, f);
    var l, r := Compose(d, ce, f), Compose(d, c, ef);
    forall p | 0 <= p < n ensures l.pieces[p] == r.pieces[p] && l.oris[p] == r.oris[p] {
      ValidFacts(d, c, p, p);
      ValidFacts(d, e, c.pieces[p], p);
    }
    SameConfig(d, r, l);
  }

  /** Moves from a valid state are determined by the state they reach. */
  lemma ComposeCancel(d: SchemeData, c: Config, g: Config, h: Config)
    requires Consistent(d) && ValidConfig(d, c) && ValidConfig(d, g) && ValidConfig(d, h)
    requires Compose(d, c, g) == Compose(d, c, h)
    ensures g == h
  {
    var n := |d.blocks|;
    forall q | 0 <= q < n ensures g.pieces[q] == h.pieces[q] && g.oris[q] == h.oris[q] {
      assert q in c.pieces;
      var p :| 0 <= p < n && c.pieces[p] == q;
      assert Compose(d, c, g).pieces[p] == Compose(d, c, h).pieces[p];
      assert Compose(d, c, g).oris[p] == Compose(d, c, h).oris[p];
    }
    assert g.pieces == h.pieces && g.oris == h.oris;
  }

  /** In a valid state the letter at a slot is the one whose home is that slot's side of the piece there. */
  lemma ShownHome(d: SchemeData, c: Config, pos: nat, slot: nat)
    requires Consistent(d) && ValidConfig(d, c) && pos < |d.blocks| && slot < d.blockLen
    ensures d.refPos[LetterAtSlot(d, c, pos, slot)] == Slot(c.pieces[pos], Side(d, c, pos, slot))
  {
    var side := Side(d, c, pos, slot);
    assert d.refPos[d.blocks[c.pieces[pos]][side]] == Slot(c.pieces[pos], side);
  }

  /** From solved, each scheme letter is found at its home slot. */
  lemma LocateSolved(d: SchemeData, x: char)
    requires Consistent(d) && x in d.refPos
    ensures ValidConfig(d, SolvedConfig(|d.blocks|))
    ensures Locate(d, SolvedConfig(|d.blocks|), x) == Some(d.refPos[x])
  {
    var h := d.refPos[x];
    SolvedShowsBlocks(d, h.pos, h.slot);
    LocateShown(d, SolvedConfig(|d.blocks|), x, h.pos, h.slot);
  }

  /** `swapStickers(x, y)` from any state is the swap from solved, composed on the right. */
  lemma SwapCompose(d: SchemeData, c: Config, x: char, y: char)
    requires Consistent(d) && ValidConfig(d, c) && x in d.refPos && y in d.refPos
    ensures ValidConfig(d, SolvedConfig(|d.blocks|))
    ensures SwapResult(d, SolvedConfig(|d.blocks|), x, y).Some?
    ensures SwapResult(d, c, x, y) == Some(Compose(d, c, SwapResult(d, SolvedConfig(|d.blocks|), x, y).value))
  {
    var hx, hy := d.refPos[x], d.refPos[y];
    LocateSolved(d, x);
    LocateSolved(d, y);
    LocateExact(d, c, x);
    LocateExact(d, c, y);
    var a, b := Locate(d, c, x).value, Locate(d, c, y).value;
    ShownHome(d, c, a.pos, a.slot);
    ShownHome(d, c, b.pos, b.slot);
    SwapAtCompose(d, c, a, b, hx, hy);
  }

  /**
   * The body of `swapStickers` at slots `a` and `b` showing the letters whose
   * homes are `hx` and `hy` is the solved state's swap of `hx` and `hy`,
   * composed on the right.
   */
  lemma SwapAtCompose(d: SchemeData, c: Config, a: Slot, b: Slot, hx: Slot, hy: Slot)
    requires Consistent(d) && ValidConfig(d, c)
    requires a.pos < |d.blocks| && b.pos < |d.blocks| && a.slot < d.blockLen && b.slot < d.blockLen
    requires hx.pos < |d.blocks| && hy.pos < |d.blocks| && hx.slot < d.blockLen && hy.slot < d.blockLen
    requires c.pieces[a.pos] == hx.pos && Side(d, c, a.pos, a.slot) == hx.slot
    requires c.pieces[b.pos] == hy.pos && Side(d, c, b.pos, b.slot) == hy.slot
    ensures ValidConfig(d, SolvedConfig(|d.blocks|))
    ensures SwapAt(d, c, a, b) == Compose(d, c, SwapAt(d, SolvedConfig(|d.blocks|), hx, hy))
  {
    SolvedIsValid(d);
    var r := SwapAt(d, c, a, b);
    var t := Compose(d, c, SwapAt(d, SolvedConfig(|d.blocks|), hx, hy));
    forall p | 0 <= p < |d.blocks| ensures r.pieces[p] == t.pieces[p] && r.oris[p] == t.oris[p] {
      SwapAtComposeAt(d, c, a, b, hx, hy, p);
    }
    SameConfig(d, r, t);
  }

  /** `SwapAtCompose` at one position. */
  lemma SwapAtComposeAt(d: SchemeData, c: Config, a: Slot, b: Slot, hx: Slot, hy: Slot, p: int)
    requires Consistent(d) && ValidConfig(d, c)
    requires a.pos < |d.blocks| && b.pos < |d.blocks| && a.slot < d.blockLen && b.slot < d.blockLen
    requires hx.pos < |d.blocks| && hy.pos < |d.blocks| && hx.slot < d.blockLen && hy.slot < d.blockLen
    requires c.pieces[a.pos] == hx.pos && Side(d, c, a.pos, a.slot) == hx.slot
    requires c.pieces[b.pos] == hy.pos && Side(d, c, b.pos, b.slot) == hy.slot
    requires 0 <= p < |d.blocks|
    ensures ValidConfig(d, SolvedConfig(|d.blocks|))
    ensures var r, t := SwapAt(d, c, a, b), Compose(d, c, SwapAt(d, SolvedConfig(|d.blocks|), hx, hy));
      r.pieces[p] == t.pieces[p] && r.oris[p] == t.oris[p]
  {
    hide ValidConfig, Consistent, Side, Facing, SwapAt, Compose, LetterAtSlot, SolvedConfig;
    var n, m := |d.blocks|, d.blockLen;
    var s := SolvedConfig(n);
    SolvedIsValid(d);
    SideIs(d, s, hx.pos, hx.slot);
    SideIs(d, s, hy.pos, hy.slot);
    SideIs(d, c, a.pos, a.slot);
    SideIs(d, c, b.pos, b.slot);
    SwapAtOris(d, s, hx, hy);
    SwapAtOris(d, c, a, b);
    var e := SwapAt(d, s, hx, hy);
    var r := SwapAt(d, c, a, b);
    var t := Compose(d, c, e);
    ValidFacts(d, c, p, a.pos);
    ValidFacts(d, c, p, b.pos);
    ValidFacts(d, c, a.pos, b.pos);
    var oa, ob := c.oris[a.pos], c.oris[b.pos];
    if p == b.pos {
      TurnsAgree(m, b.slot, ob, hy.slot, hx.slot);
    } else if p == a.pos {
      TurnsAgree(m, a.slot, oa, hx.slot, hy.slot);
    } else {
      NoTurn(c.oris[p], m);
    }
  }

  /** What `ValidConfig` says about two positions. */
  lemma ValidFacts(d: SchemeData, c: Config, p: int, q: int)
    requires Consistent(d) && ValidConfig(d, c) && 0 <= p < |d.blocks| && 0 <= q < |d.blocks|
    ensures d.blockLen > 0 && |c.pieces| == |d.blocks| && |c.oris| == |d.blocks|
    ensures 0 <= c.oris[p] < d.blockLen && 0 <= c.pieces[p] < |d.blocks|
    ensures c.pieces[p] == c.pieces[q] ==> p == q
  {
  }

  /** The side facing a slot, as one wrap-around step. */
  lemma SideIs(d: SchemeData, c: Config, pos: nat, slot: nat)
    requires Consistent(d) && ValidConfig(d, c) && pos < |d.blocks| && slot < d.blockLen
    ensures 0 <= c.oris[pos] < d.blockLen
    ensures Side(d, c, pos, slot) == Wrap(slot - c.oris[pos], d.blockLen)
  {
  }



  /** A piece turned so that `home` faces `slot`, then turned again to put `other` there. */
  lemma TurnsAgree(m: int, slot: int, o: int, home: int, other: int)
    requires m > 0 && 0 <= slot < m && 0 <= o < m && 0 <= home < m && 0 <= other < m
    requires home == Wrap(slot - o, m)
    ensures AddTurns(Wrap(home - other, m), o, m) == Wrap(slot - other, m)
  {
  }

  lemma NoTurn(o: int, m: int)
    requires m > 0 && 0 <= o < m
    ensures AddTurns(0, o, m) == o
  {
  }

  /** `threeCycle(a, b, x)` from any state is the three-cycle from solved, composed on the right. */
  lemma ThreeCycleCompose(d: SchemeData, c: Config, a: char, b: char, x: char)
    requires Consistent(d) && ValidConfig(d, c) && a in d.refPos && b in d.refPos && x in d.refPos
    ensures ValidConfig(d, SolvedConfig(|d.blocks|))
    ensures ThreeCycleResult(d, SolvedConfig(|d.blocks|), a, b, x).Some?
    ensures ThreeCycleResult(d, c, a, b, x) == Some(Compose(d, c, ThreeCycleResult(d, SolvedConfig(|d.blocks|), a, b, x).value))
  {
    var s := SolvedConfig(|d.blocks|);
    SwapCompose(d, c, b, x);
    var e1 := SwapResult(d, s, b, x).value;
    var c1 := Compose(d, c, e1);
    SwapCompose(d, c1, a, b);
    SwapCompose(d, e1, a, b);
    var e2 := SwapResult(d, s, a, b).value;
    ComposeAssoc(d, c, e1, e2);
  }

  /** A comm sequence from any state is the sequence from solved, composed on the right. */
  lemma {:induction false} ApplyCommsCompose(d: SchemeData, c: Config, buffer: char, comms: seq<(char, char)>)
    requires Consistent(d) && ValidConfig(d, c)
    requires ValidConfig(d, SolvedConfig(|d.blocks|)) && ApplyComms(d, SolvedConfig(|d.blocks|), buffer, comms).Some?
    ensures ApplyComms(d, c, buffer, comms) == Some(Compose(d, c, ApplyComms(d, SolvedConfig(|d.blocks|), buffer, comms).value))
    decreases |comms|
  {
    var s := SolvedConfig(|d.blocks|);
    if |comms| == 0 {
      ComposeSolved(d, c);
    } else {
      CommLettersInCons(d, comms);
      var rest := comms[1..];
      ThreeCycleCompose(d, c, buffer, comms[0].0, comms[0].1);
      var t := ThreeCycleResult(d, s, buffer, comms[0].0, comms[0].1).value;
      var c1 := Compose(d, c, t);
      ApplyCommsCompose(d, c1, buffer, rest);
      ApplyCommsCompose(d, t, buffer, rest);
      ComposeAssoc(d, c, t, ApplyComms(d, s, buffer, rest).value);
    }
  }

  /** `applyCommSequence` of `comms` from solved ends solved. */
  ghost predicate ReturnsToSolved(d: SchemeData, buffer: char, comms: seq<(char, char)>) {
    && Consistent(d)
    && ValidConfig(d, SolvedConfig(|d.blocks|))
    && ApplyComms(d, SolvedConfig(|d.blocks|), buffer, comms) == Some(SolvedConfig(|d.blocks|))
  }

  /** If `xs + ys` brings solved back to solved, so does `ys + xs`. */
  lemma SwappedHalvesReturn(d: SchemeData, buffer: char, xs: seq<(char, char)>, ys: seq<(char, char)>)
    requires ReturnsToSolved(d, buffer, xs + ys)
    ensures ReturnsToSolved(d, buffer, ys + xs)
  {
    var s := SolvedConfig(|d.blocks|);
    ApplyCommsAppend(d, s, buffer, xs, ys);
    var ex := ApplyComms(d, s, buffer, xs).value;
    assert ApplyComms(d, ex, buffer, ys) == Some(s);
    var ey := ApplyComms(d, s, buffer, ys).value;
    ApplyCommsCompose(d, ex, buffer, ys);
    ApplyCommsCompose(d, ey, buffer, xs);
    // ex then ey is the identity, so ey then ex is too.
    var g := Compose(d, ey, ex);
    ComposeAssoc(d, ex, ey, ex);
    ComposeSolved(d, ex);
    ComposeCancel(d, ex, g, s);
    ApplyCommsAppend(d, s, buffer, ys, xs);
  }

  /** A rotation of a sequence that returns to solved also returns to solved. */
  lemma RotationReturns(d: SchemeData, buffer: char, comms: seq<(char, char)>, rotated: seq<(char, char)>)
    requires ReturnsToSolved(d, buffer, comms) && IsRotation(rotated, comms)
    ensures ReturnsToSolved(d, buffer, rotated)
  {
    hide ReturnsToSolved;
    var k :| 0 <= k <= |comms| && rotated == Rotate(comms, k);
    var xs, ys := comms[..k], comms[k..];
    RotateHalves(comms, k);
    SwappedHalvesReturn(d, buffer, xs, ys);
  }

  /** Rotating by `k` swaps the two halves at `k`. */
  lemma RotateHalves<T>(s: seq<T>, k: nat)
    requires k <= |s|
    ensures s == s[..k] + s[k..] && Rotate(s, k) == s[k..] + s[..k]
  {
  }
}
