/**
 * The debugging helpers of python/tracer.py on top of the simulator: the
 * labels visible on every piece, and the decomposition of the sticker
 * permutation into the disjoint cycles of the successor map `Home`.
 */
module Tracer {
  import opened Arith
  import opened Seqs
  import opened Scheme
  import opened Puzzle

  /** The letters visible at position `pos`, slot by slot. */
  function ViewRow(d: SchemeData, c: Config, pos: nat): (row: string)
    requires Consistent(d) && ValidConfig(d, c) && pos < |d.blocks|
  {
    seq(d.blockLen, s requires 0 <= s < d.blockLen => LetterAtSlot(d, c, pos, s))
  }

  /** `view_state_labels`: one string per position. */
  function ViewLabels(d: SchemeData, c: Config): (labels: seq<string>)
    requires Consistent(d) && ValidConfig(d, c)
    ensures |labels| == |d.blocks|
    ensures forall p :: 0 <= p < |labels| ==> |labels[p]| == d.blockLen
  {
    seq(|d.blocks|, p requires 0 <= p < |d.blocks| => ViewRow(d, c, p))
  }

  /** The labels of the solved state are the scheme itself. */
  lemma SolvedView(d: SchemeData)
    requires Consistent(d)
    ensures ValidConfig(d, SolvedConfig(|d.blocks|))
    ensures ViewLabels(d, SolvedConfig(|d.blocks|)) == d.blocks
  {
    SolvedIsValid(d);
    var labels := ViewLabels(d, SolvedConfig(|d.blocks|));
    forall p | 0 <= p < |d.blocks| ensures labels[p] == d.blocks[p] {
      forall s | 0 <= s < d.blockLen ensures labels[p][s] == d.blocks[p][s] {
        SolvedShowsBlocks(d, p, s);
      }
    }
  }

  /**
   * Every row of the view is the block of the piece at that position, read
   * from the side its orientation brings to slot 0.
   */
  lemma ViewRowIsRotation(d: SchemeData, c: Config, pos: nat)
    requires Consistent(d) && ValidConfig(d, c) && pos < |d.blocks|
    ensures Wrap(-c.oris[pos], d.blockLen) == (-c.oris[pos]) % d.blockLen
    ensures ViewLabels(d, c)[pos] == Rotate(d.blocks[c.pieces[pos]], Wrap(-c.oris[pos], d.blockLen))
  {
    hide LetterAtSlot, Rotate;
    var m := d.blockLen;
    var o := c.oris[pos];
    WrapIsMod(-o, m);
    var k := Wrap(-o, m);
    var block := d.blocks[c.pieces[pos]];
    var row := ViewLabels(d, c)[pos];
    assert row == ViewRow(d, c, pos);
    forall s | 0 <= s < m ensures row[s] == Rotate(block, k)[s] {
      ShowsSide(d, c, pos, s);
      assert row[s] == LetterAtSlot(d, c, pos, s);
      assert Side(d, c, pos, s) == Facing(s, o, m);
      if s < o {
        assert Facing(s, o, m) == s - o + m == k + s;
      } else {
        assert Facing(s, o, m) == s - o;
      }
    }
  }

  /** Every letter of `s` is a scheme letter. */
  ghost predicate InScheme(d: SchemeData, s: seq<char>) {
    forall i :: 0 <= i < |s| ==> s[i] in d.refPos
  }

  /** Each entry of `s` after the first is the letter at the home of the one before. */
  ghost predicate Follows(d: SchemeData, c: Config, s: seq<char>)
    requires Consistent(d) && ValidConfig(d, c) && InScheme(d, s)
  {
    forall i {:trigger Home(d, c, s[i])} :: 0 <= i < |s| - 1 ==> s[i + 1] == Home(d, c, s[i])
  }

  /**
   * A closed cycle of the successor map `letter_at_home`: it follows the map,
   * ends where it starts, and does not pass its start before that.
   */
  ghost predicate IsCycle(d: SchemeData, c: Config, cyc: seq<char>)
    requires Consistent(d) && ValidConfig(d, c)
  {
    && |cyc| >= 2
    && InScheme(d, cyc) && Follows(d, c, cyc)
    && cyc[|cyc| - 1] == cyc[0]
    && (forall i :: 0 < i < |cyc| - 1 ==> cyc[i] != cyc[0])
  }

  /**
   * A cycle visits each of its letters once: because the successor map is
   * injective, the first repetition could only be the start itself.
   */
  lemma CycleDistinct(d: SchemeData, c: Config, cyc: seq<char>)
    requires Consistent(d) && ValidConfig(d, c) && IsCycle(d, c, cyc)
    ensures Distinct(cyc[..|cyc| - 1])
  {
    forall i, j | 0 <= i < j < |cyc| - 1 ensures cyc[i] != cyc[j] {
      NoRepeat(d, c, cyc, i, j);
    }
  }

  lemma {:induction false} NoRepeat(d: SchemeData, c: Config, cyc: seq<char>, i: nat, j: nat)
    requires Consistent(d) && ValidConfig(d, c) && IsCycle(d, c, cyc)
    requires i < j < |cyc| - 1
    ensures cyc[i] != cyc[j]
    decreases i
  {
    if i > 0 {
      NoRepeat(d, c, cyc, i - 1, j - 1);
      assert cyc[i] == Home(d, c, cyc[i - 1]) && cyc[j] == Home(d, c, cyc[j - 1]);
      HomeInjective(d, c, cyc[i - 1], cyc[j - 1]);
    }
  }

  /** No letter outside `done` has the letter at its home in `done`. */
  ghost predicate Closed(d: SchemeData, c: Config, done: set<char>)
    requires Consistent(d) && ValidConfig(d, c)
  {
    forall p {:trigger Home(d, c, p)} :: p in d.refPos && Home(d, c, p) in done ==> p in done
  }

  /** Adding a closed cycle to a closed set keeps it closed. */
  lemma CloseCycle(d: SchemeData, c: Config, done: set<char>, cyc: seq<char>)
    requires Consistent(d) && ValidConfig(d, c) && Closed(d, c, done) && IsCycle(d, c, cyc)
    ensures Closed(d, c, done + Elems(cyc))
  {
    forall p | p in d.refPos && Home(d, c, p) in done + Elems(cyc) ensures p in done + Elems(cyc) {
      if Home(d, c, p) !in done {
        var j :| 0 <= j < |cyc| && cyc[j] == Home(d, c, p);
        if j == 0 {
          j := |cyc| - 1;
        }
        assert Home(d, c, cyc[j - 1]) == Home(d, c, p);
        HomeInjective(d, c, cyc[j - 1], p);
      }
    }
  }

  /** The letters of all `cycles`. */
  ghost function Letters(cycles: seq<seq<char>>): set<char>
    decreases |cycles|
  {
    if |cycles| == 0 then {} else Letters(cycles[..|cycles| - 1]) + Elems(cycles[|cycles| - 1])
  }

  /** A letter of one of the cycles is one of their letters. */
  lemma {:induction false} InLetters(cycles: seq<seq<char>>, k: nat, ch: char)
    requires k < |cycles| && ch in cycles[k]
    ensures ch in Letters(cycles)
    decreases |cycles|
  {
    if k < |cycles| - 1 {
      var front := cycles[..|cycles| - 1];
      assert front[k] == cycles[k];
      InLetters(front, k, ch);
    }
  }

  /** Every letter of the cycles lies on one of them. */
  lemma {:induction false} LettersWitness(cycles: seq<seq<char>>, ch: char) returns (k: nat)
    requires ch in Letters(cycles)
    ensures k < |cycles| && ch in cycles[k]
    decreases |cycles|
  {
    var front := cycles[..|cycles| - 1];
    if ch in Letters(front) {
      k := LettersWitness(front, ch);
      assert front[k] == cycles[k];
    } else {
      k := |cycles| - 1;
    }
  }

  /** `cycles` are closed cycles of the successor map, pairwise disjoint. */
  ghost predicate Decomposes(d: SchemeData, c: Config, cycles: seq<seq<char>>)
    requires Consistent(d) && ValidConfig(d, c)
  {
    && (forall k :: 0 <= k < |cycles| ==> IsCycle(d, c, cycles[k]))
    && Disjoint(cycles)
  }

  /** No letter lies on two of the `cycles`. */
  ghost predicate Disjoint(cycles: seq<seq<char>>) {
    forall k1, k2, ch :: 0 <= k1 < k2 < |cycles| && ch in cycles[k1] ==> ch !in cycles[k2]
  }

  /**
   * `full_sticker_cycles`: take any letter not yet seen, follow the
   * successor map until it returns, and repeat until every letter is seen.
   * The result is the cycle decomposition of the successor map: closed
   * cycles, pairwise disjoint, covering every scheme letter.
   */
  method FullStickerCycles(d: SchemeData, c: Config) returns (cycles: seq<seq<char>>)
    requires Consistent(d) && ValidConfig(d, c)
    ensures Decomposes(d, c, cycles)
    ensures forall ch :: ch in d.refPos ==> exists k :: 0 <= k < |cycles| && ch in cycles[k]
  {
    var unseen := d.refPos.Keys;
    cycles := [];
    while unseen != {}
      invariant unseen == d.refPos.Keys - Letters(cycles)
      invariant Closed(d, c, Letters(cycles))
      invariant Decomposes(d, c, cycles)
      decreases |unseen|
    {
      var start :| start in unseen;
      var cyc, rest := WalkCycle(d, c, Letters(cycles), unseen, start);
      AddCycle(d, c, cycles, cyc);
      DropCycle(d.refPos.Keys, Letters(cycles), cyc, unseen, rest);
      unseen := rest - {start};
      cycles := cycles + [cyc];
    }
    forall ch | ch in d.refPos ensures exists k :: 0 <= k < |cycles| && ch in cycles[k] {
      var k := LettersWitness(cycles, ch);
    }
  }

  /** Adding a closed cycle of letters not yet seen keeps the decomposition. */
  lemma AddCycle(d: SchemeData, c: Config, cycles: seq<seq<char>>, cyc: seq<char>)
    requires Consistent(d) && ValidConfig(d, c)
    requires Decomposes(d, c, cycles) && Closed(d, c, Letters(cycles)) && IsCycle(d, c, cyc)
    requires forall i :: 0 <= i < |cyc| ==> cyc[i] !in Letters(cycles)
    ensures Letters(cycles + [cyc]) == Letters(cycles) + Elems(cyc)
    ensures Closed(d, c, Letters(cycles + [cyc]))
    ensures Decomposes(d, c, cycles + [cyc])
  {
    var after := cycles + [cyc];
    assert after[..|cycles|] == cycles;
    assert Letters(after) == Letters(cycles) + Elems(cyc);
    CloseCycle(d, c, Letters(cycles), cyc);
    DisjointAdd(cycles, cyc);
    forall k | 0 <= k < |after| ensures IsCycle(d, c, after[k]) {
      if k < |cycles| {
        assert after[k] == cycles[k];
      }
    }
  }

  /** A sequence of letters none of the cycles uses can join them. */
  lemma DisjointAdd(cycles: seq<seq<char>>, cyc: seq<char>)
    requires Disjoint(cycles) && forall i :: 0 <= i < |cyc| ==> cyc[i] !in Letters(cycles)
    ensures Disjoint(cycles + [cyc])
  {
    var after := cycles + [cyc];
    forall k1, k2, ch | 0 <= k1 < k2 < |after| && ch in after[k1] ensures ch !in after[k2] {
      assert after[k1] == cycles[k1];
      if k2 < |cycles| {
        assert after[k2] == cycles[k2];
      } else {
        InLetters(cycles, k1, ch);
      }
    }
  }

  /** The letters left unseen once a cycle is walked, and that there are fewer of them. */
  lemma DropCycle(all: set<char>, done: set<char>, cyc: seq<char>, unseen: set<char>, rest: set<char>)
    requires unseen == all - done && |cyc| > 0 && cyc[0] in unseen
    requires forall x :: x in rest <==> x in unseen && x !in cyc
    ensures rest - {cyc[0]} == all - (done + Elems(cyc))
    ensures |rest - {cyc[0]}| < |unseen|
  {
    var left := rest - {cyc[0]};
    assert unseen == left + (unseen - left) && left * (unseen - left) == {};
    assert cyc[0] in unseen - left;
  }

  /**
   * The state of the inner walk of `full_sticker_cycles`: `walk` follows the
   * successor map from `start` through letters outside `done`, has not come
   * back to `start`, and `rest` is `unseen` without the letters already left.
   */
  ghost predicate Walking(d: SchemeData, c: Config, done: set<char>, unseen: set<char>,
                          start: char, walk: seq<char>, rest: set<char>)
    requires Consistent(d) && ValidConfig(d, c)
  {
    && |walk| >= 1 && walk[0] == start
    && InScheme(d, walk) && Follows(d, c, walk)
    && (forall i :: 0 <= i < |walk| ==> walk[i] !in done)
    && (forall i :: 0 < i < |walk| ==> walk[i] != start)
    && walk[|walk| - 1] in rest
    && (forall x :: x in rest <==> x in unseen && x !in walk[..|walk| - 1])
  }

  /**
   * The inner walk of `full_sticker_cycles` from an unseen letter, dropping
   * each letter from `unseen` as it is left. It ends because the successor
   * map is a bijection: it never meets a letter of an earlier cycle or an
   * earlier letter of its own, so every step drops one unseen letter.
   */
  method WalkCycle(d: SchemeData, c: Config, ghost done: set<char>, unseen: set<char>, start: char)
    returns (cyc: seq<char>, rest: set<char>)
    requires Consistent(d) && ValidConfig(d, c)
    requires unseen == d.refPos.Keys - done && Closed(d, c, done) && start in unseen
    ensures IsCycle(d, c, cyc) && cyc[0] == start
    ensures forall i :: 0 <= i < |cyc| ==> cyc[i] !in done
    ensures forall x :: x in rest <==> x in unseen && x !in cyc
  {
    cyc := [start];
    rest := unseen;
    var cur := start;
    assert cyc[..0] == [];
    while true
      invariant Walking(d, c, done, unseen, start, cyc, rest) && cur == cyc[|cyc| - 1]
      decreases |rest|
    {
      var next := Home(d, c, cur);
      if next == start {
        WalkCloses(d, c, done, unseen, start, cyc, rest);
        cyc := cyc + [next];
        rest := rest - {cur};
        return;
      }
      WalkExtends(d, c, done, unseen, start, cyc, rest);
      cyc := cyc + [next];
      rest := rest - {cur};
      cur := next;
    }
  }

  /** A walk whose last letter is sent back to `start` closes a cycle. */
  lemma WalkCloses(d: SchemeData, c: Config, done: set<char>, unseen: set<char>,
                   start: char, walk: seq<char>, rest: set<char>)
    requires Consistent(d) && ValidConfig(d, c) && Walking(d, c, done, unseen, start, walk, rest)
    requires Home(d, c, walk[|walk| - 1]) == start
    ensures IsCycle(d, c, walk + [start])
    ensures forall i :: 0 <= i < |walk| + 1 ==> (walk + [start])[i] !in done
    ensures forall x :: x in rest - {walk[|walk| - 1]} <==> x in unseen && x !in walk + [start]
  {
    var cyc := walk + [start];
    assert walk[..|walk| - 1] + [walk[|walk| - 1]] == walk;
    forall x ensures x in walk + [start] <==> x in walk {
      assert start == walk[0];
    }
  }

  /** Otherwise the next letter is new and outside `done`, so the walk goes on. */
  lemma WalkExtends(d: SchemeData, c: Config, done: set<char>, unseen: set<char>,
                    start: char, walk: seq<char>, rest: set<char>)
    requires Consistent(d) && ValidConfig(d, c) && Walking(d, c, done, unseen, start, walk, rest)
    requires unseen == d.refPos.Keys - done && Closed(d, c, done)
    requires Home(d, c, walk[|walk| - 1]) != start
    ensures Walking(d, c, done, unseen, start, walk + [Home(d, c, walk[|walk| - 1])],
                    rest - {walk[|walk| - 1]})
    ensures |rest - {walk[|walk| - 1]}| < |rest|
  {
    var cur := walk[|walk| - 1];
    var next := Home(d, c, cur);
    var walk' := walk + [next];
    assert next !in done;
    assert walk'[..|walk'| - 1] == walk;
    assert walk[..|walk| - 1] + [cur] == walk;
    forall j | 0 <= j < |walk| ensures walk[j] != next {
      if j > 0 {
        assert Home(d, c, walk[j - 1]) == walk[j];
        HomeInjective(d, c, walk[j - 1], cur);
        assert walk[j - 1] in walk[..|walk| - 1];
      }
    }
  }
}
