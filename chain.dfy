/**
 * The chain synthesizer: `generatePieceLetters` (web/chain.js) and
 * `generate_piece_letters` (python/comm_drill_trainer.py). After the buffer
 * trim, each usable block keeps its letters other than the buffer; a walk
 * pops every letter once, never taking two letters of one block in a row,
 * and walks are chained, rotated against the previous block, until `count`
 * letters are out. Both implementations share the walk and the chaining;
 * the Python one also takes a forced pair the chain must contain.
 */
module Chain {
  import opened Wrappers
  import opened Text
  import opened Seqs
  import opened Oracle
  import opened Scheme
  import FiveCycle

  /** A popped letter with the index of the block it came from: `[idx, letter]`. */
  type Entry = (nat, char)

  datatype ChainError =
    | NegativeCount
    | BadPair(cause: FiveCycle.FcError)
    | PairNeedsTwoLetters
    | NothingAfterTrim
    | NoUsableLetters
    | TooFewBlocks
    | PairLettersEqual
    | PairLettersMissing(missing: seq<char>)
    | PairSameBlock
    | SpacingFailed

  // ---------------------------------------------------------------------------
  // The buffer trim and the letter tables

  /** The first index `>= from` of a block containing `buffer`, or `|blocks|` when there is none. */
  function FirstIncluding(blocks: seq<string>, buffer: string, from: nat): (i: nat)
    requires from <= |blocks|
    ensures from <= i <= |blocks|
    ensures i < |blocks| ==> Includes(blocks[i], buffer)
    ensures forall k :: from <= k < i ==> !Includes(blocks[k], buffer)
    decreases |blocks| - from
  {
    if from == |blocks| then from
    else if Includes(blocks[from], buffer) then from
    else FirstIncluding(blocks, buffer, from + 1)
  }

  /** Where the trimmed blocks start: after the first block holding the buffer, or 0 when there is none or no buffer. */
  function TrimPoint(blocks: seq<string>, buffer: string): (start: nat)
    ensures start <= |blocks|
    ensures start == 0 <==> buffer == "" || forall k :: 0 <= k < |blocks| ==> !Includes(blocks[k], buffer)
    ensures start > 0 ==> Includes(blocks[start - 1], buffer) && forall k :: 0 <= k < start - 1 ==> !Includes(blocks[k], buffer)
  {
    if buffer == "" then 0
    else
      var i := FirstIncluding(blocks, buffer, 0);
      if i == |blocks| then 0 else i + 1
  }

  /** The search for the trim point: the first block that includes the buffer. */
  method FindTrimStart(blocks: seq<string>, buffer: string) returns (start: nat)
    ensures start == TrimPoint(blocks, buffer)
  {
    start := 0;
    if buffer != "" {
      var i := 0;
      while i < |blocks|
        invariant 0 <= i <= |blocks|
        invariant forall k :: 0 <= k < i ==> !Includes(blocks[k], buffer)
      {
        if Includes(blocks[i], buffer) {
          return i + 1;
        }
        i := i + 1;
      }
    }
  }

  /** `[...block].filter((letter) => letter !== bufferLetter)`: the letters of a block, the buffer left out. */
  function Letters(block: string, buffer: string): (r: seq<char>)
    ensures forall c :: c in r <==> c in block && [c] != buffer
    ensures |r| <= |block|
  {
    if |block| == 0 then []
    else (if [block[0]] != buffer then [block[0]] else []) + Letters(block[1..], buffer)
  }

  /** The blocks that keep a letter once the buffer is left out, in order. */
  function UsableBlocks(blocks: seq<string>, buffer: string): (r: seq<string>)
    ensures |r| <= |blocks|
    ensures forall i :: 0 <= i < |r| ==> r[i] in blocks && Letters(r[i], buffer) != []
    ensures forall b :: b in blocks && Letters(b, buffer) != [] ==> b in r
  {
    if |blocks| == 0 then []
    else
      var last := blocks[|blocks| - 1];
      assert blocks == blocks[..|blocks| - 1] + [last];
      UsableBlocks(blocks[..|blocks| - 1], buffer) + (if Letters(last, buffer) != [] then [last] else [])
  }

  /** The letter lists of the usable blocks. */
  function LettersOf(strings: seq<string>, buffer: string): (ts: seq<seq<char>>)
    ensures |ts| == |strings|
    ensures forall k :: 0 <= k < |ts| ==> ts[k] == Letters(strings[k], buffer)
  {
    seq(|strings|, k requires 0 <= k < |strings| => Letters(strings[k], buffer))
  }

  /** The loop filling `blockStrings` and `blockLetterTemplates`. */
  method SelectBlocks(trimmed: seq<string>, buffer: string) returns (strings: seq<string>, templates: seq<seq<char>>)
    ensures strings == UsableBlocks(trimmed, buffer)
    ensures templates == LettersOf(strings, buffer)
  {
    hide Letters;
    strings, templates := [], [];
    for i := 0 to |trimmed|
      invariant strings == UsableBlocks(trimmed[..i], buffer)
      invariant templates == LettersOf(strings, buffer)
    {
      assert trimmed[..i + 1][..i] == trimmed[..i];
      var letters := Letters(trimmed[i], buffer);
      if letters != [] {
        strings := strings + [trimmed[i]];
        templates := templates + [letters];
      }
    }
    assert trimmed[..|trimmed|] == trimmed;
  }

  /** The block `letterToBlockIdx` gives a letter: the last usable block holding it, counted among `strings`. */
  function LastBlock(strings: seq<string>, buffer: string, c: char): Option<nat> {
    if |strings| == 0 then None
    else if c in Letters(strings[|strings| - 1], buffer) then Some(|strings| - 1)
    else LastBlock(strings[..|strings| - 1], buffer, c)
  }

  /** `LastBlock` finds the last block holding the letter, and nothing when no block does. */
  lemma {:induction false} LastBlockIsLast(strings: seq<string>, buffer: string, c: char)
    ensures LastBlock(strings, buffer, c).None? <==> forall k :: 0 <= k < |strings| ==> c !in Letters(strings[k], buffer)
    ensures LastBlock(strings, buffer, c).Some? ==>
      && LastBlock(strings, buffer, c).value < |strings|
      && c in Letters(strings[LastBlock(strings, buffer, c).value], buffer)
      && forall k :: LastBlock(strings, buffer, c).value < k < |strings| ==> c !in Letters(strings[k], buffer)
  {
    hide Letters;
    if |strings| > 0 && c !in Letters(strings[|strings| - 1], buffer) {
      var front := strings[..|strings| - 1];
      LastBlockIsLast(front, buffer, c);
      assert forall k :: 0 <= k < |front| ==> front[k] == strings[k];
    }
  }

  /** The loop filling `letterToBlockIdx`: each letter other than the buffer, with the index of its (last) block. */
  method LetterIndex(strings: seq<string>, buffer: string) returns (index: map<char, nat>)
    ensures forall c :: LastBlock(strings, buffer, c) == (if c in index then Some(index[c]) else None)
  {
    hide Letters;
    index := map[];
    for i := 0 to |strings|
      invariant forall c :: LastBlock(strings[..i], buffer, c) == (if c in index then Some(index[c]) else None)
    {
      var block := strings[i];
      ghost var before := index;
      for j := 0 to |block|
        invariant forall c :: c in block[..j] && [c] != buffer ==> c in index && index[c] == i
        invariant forall c :: !(c in block[..j] && [c] != buffer) ==>
          (if c in index then Some(index[c]) else None) == LastBlock(strings[..i], buffer, c)
      {
        assert block[..j + 1] == block[..j] + [block[j]];
        if [block[j]] != buffer {
          index := index[block[j] := i];
        }
      }
      assert block[..|block|] == block;
      assert strings[..i + 1][..i] == strings[..i];
      forall c ensures LastBlock(strings[..i + 1], buffer, c) == (if c in index then Some(index[c]) else None) {
        assert strings[..i + 1][i] == block;
      }
    }
    assert strings[..|strings|] == strings;
  }

  /** `blockLetterTemplates.reduce((sum, letters) => sum + letters.length, 0)`. */
  function TotalLetters(ts: seq<seq<char>>): nat {
    if |ts| == 0 then 0 else TotalLetters(ts[..|ts| - 1]) + |ts[|ts| - 1]|
  }

  /** The second "no usable letters" check never fires: every kept block has a letter. */
  lemma {:induction false} TotalPositive(ts: seq<seq<char>>)
    requires |ts| > 0 && forall k :: 0 <= k < |ts| ==> ts[k] != []
    ensures TotalLetters(ts) > 0
  {
    if |ts| > 1 {
      TotalPositive(ts[..|ts| - 1]);
    }
  }

  lemma {:induction false} TotalSameLengths(a: seq<seq<char>>, b: seq<seq<char>>)
    requires |a| == |b| && forall k :: 0 <= k < |a| ==> |a[k]| == |b[k]|
    ensures TotalLetters(a) == TotalLetters(b)
  {
    if |a| > 0 {
      TotalSameLengths(a[..|a| - 1], b[..|b| - 1]);
    }
  }

  /** Popping one letter off one block lowers the total by one. */
  lemma {:induction false} TotalPop(ts: seq<seq<char>>, k: nat)
    requires k < |ts| && ts[k] != []
    ensures TotalLetters(ts[k := ts[k][..|ts[k]| - 1]]) + 1 == TotalLetters(ts)
  {
    var us := ts[k := ts[k][..|ts[k]| - 1]];
    if k < |ts| - 1 {
      assert us[..|us| - 1] == ts[..|ts| - 1][k := ts[k][..|ts[k]| - 1]];
      TotalPop(ts[..|ts| - 1], k);
    } else {
      assert us[..|us| - 1] == ts[..|ts| - 1];
    }
  }

  /** No letters left means every block is empty. */
  lemma {:induction false} TotalZero(ts: seq<seq<char>>)
    requires TotalLetters(ts) == 0
    ensures forall k :: 0 <= k < |ts| ==> ts[k] == []
  {
    if |ts| > 0 {
      TotalZero(ts[..|ts| - 1]);
      assert forall k :: 0 <= k < |ts| - 1 ==> ts[k] == ts[..|ts| - 1][k];
    }
  }

  // ---------------------------------------------------------------------------
  // Walks over the blocks

  /** The letters a cycle took from block `k`, in order. */
  function Tags(c: seq<Entry>, k: nat): seq<char> {
    if |c| == 0 then [] else Tags(c[..|c| - 1], k) + (if c[|c| - 1].0 == k then [c[|c| - 1].1] else [])
  }

  lemma {:induction false} TagsAppend(a: seq<Entry>, b: seq<Entry>, k: nat)
    ensures Tags(a + b, k) == Tags(a, k) + Tags(b, k)
    decreases |b|
  {
    if |b| > 0 {
      assert (a + b)[..|a + b| - 1] == a + b[..|b| - 1];
      TagsAppend(a, b[..|b| - 1], k);
    } else {
      assert a + b == a;
    }
  }

  /** The letter of an entry is among the letters taken from its block. */
  lemma {:induction false} TagsHave(c: seq<Entry>, j: nat)
    requires j < |c|
    ensures c[j].1 in Tags(c, c[j].0)
    decreases |c|
  {
    if j < |c| - 1 {
      TagsHave(c[..|c| - 1], j);
    }
  }

  /** A cycle pops every letter of every block exactly once. */
  ghost predicate Covers(c: seq<Entry>, templates: seq<seq<char>>) {
    && (forall i :: 0 <= i < |c| ==> c[i].0 < |templates|)
    && (forall k :: 0 <= k < |templates| ==> multiset(Tags(c, k)) == multiset(templates[k]))
  }

  /** Consecutive entries come from different blocks. */
  ghost predicate Spaced(c: seq<Entry>) {
    forall i :: 0 <= i < |c| - 1 ==> c[i].0 != c[i + 1].0
  }

  /** Rotating a cycle keeps the letters it took from every block. */
  lemma CoversRotation(c: seq<Entry>, k: nat, templates: seq<seq<char>>)
    requires k <= |c| && Covers(c, templates)
    ensures Covers(Rotate(c, k), templates)
  {
    assert c == c[..k] + c[k..];
    forall b | 0 <= b < |templates| ensures multiset(Tags(Rotate(c, k), b)) == multiset(templates[b]) {
      TagsAppend(c[k..], c[..k], b);
      TagsAppend(c[..k], c[k..], b);
    }
    forall i | 0 <= i < |c| ensures Rotate(c, k)[i].0 < |templates| {
      if i < |c| - k {
        assert Rotate(c, k)[i] == c[k + i];
      } else {
        assert Rotate(c, k)[i] == c[i - (|c| - k)];
      }
    }
  }

  /** Every entry of a covering cycle holds a letter of its block. */
  lemma CoveredEntry(c: seq<Entry>, templates: seq<seq<char>>, j: nat)
    requires Covers(c, templates) && j < |c|
    ensures c[j].0 < |templates| && c[j].1 in templates[c[j].0]
  {
    TagsHave(c, j);
    assert c[j].1 in multiset(Tags(c, c[j].0));
  }

  /** The indices of the blocks that still have letters, apart from the last one used. */
  function Candidates(working: seq<seq<char>>, last: Option<nat>): (r: seq<nat>)
    ensures forall i: nat :: i in r <==> i < |working| && working[i] != [] && last != Some(i)
  {
    if |working| == 0 then []
    else
      var k := |working| - 1;
      Candidates(working[..k], last) + (if working[k] != [] && last != Some(k) then [k] else [])
  }

  /** `blockLetterTemplates.map((letters) => shuffle([...letters]))`. */
  method ShuffledCopies(templates: seq<seq<char>>, r: Rng) returns (working: seq<seq<char>>, r': Rng)
    ensures |working| == |templates|
    ensures forall k :: 0 <= k < |templates| ==> multiset(working[k]) == multiset(templates[k])
    ensures forall k :: 0 <= k < |templates| ==> |working[k]| == |templates[k]|
  {
    working, r' := [], r;
    for k := 0 to |templates|
      invariant |working| == k
      invariant forall b :: 0 <= b < k ==> multiset(working[b]) == multiset(templates[b])
      invariant forall b :: 0 <= b < k ==> |working[b]| == |templates[b]|
    {
      var copy;
      copy, r' := Shuffled(templates[k], r');
      working := working + [copy];
    }
  }

  /**
   * The state of a walk in progress: `working` holds the letters not yet
   * popped, `cycle` those popped, with no two consecutive from one block, and
   * together they are the templates' letters.
   */
  ghost predicate InProgress(templates: seq<seq<char>>, working: seq<seq<char>>, cycle: seq<Entry>, remaining: nat, total: nat) {
    && |working| == |templates|
    && remaining == TotalLetters(working)
    && |cycle| + remaining == total
    && Spaced(cycle)
    && (forall i :: 0 <= i < |cycle| ==> cycle[i].0 < |templates|)
    && (forall k :: 0 <= k < |templates| ==> multiset(working[k]) + multiset(Tags(cycle, k)) == multiset(templates[k]))
  }

  /** Popping the last letter of a block other than the last one used keeps the walk in progress. */
  lemma PopStep(templates: seq<seq<char>>, working: seq<seq<char>>, cycle: seq<Entry>, remaining: nat, total: nat, idx: nat)
    requires InProgress(templates, working, cycle, remaining, total)
    requires idx < |working| && working[idx] != [] && (cycle != [] ==> cycle[|cycle| - 1].0 != idx)
    ensures remaining > 0
    ensures var letters := working[idx];
      InProgress(templates, working[idx := letters[..|letters| - 1]], cycle + [(idx, letters[|letters| - 1])], remaining - 1, total)
  {
    hide TotalLetters, Tags, Spaced;
    var letters := working[idx];
    var letter := letters[|letters| - 1];
    TotalPop(working, idx);
    AppendSpaced(cycle, (idx, letter));
    AppendTagged(templates, working, cycle, idx);
    var cycle' := cycle + [(idx, letter)];
    forall i | 0 <= i < |cycle'| ensures cycle'[i].0 < |templates| {
      if i < |cycle| {
        assert cycle'[i] == cycle[i];
      }
    }
  }

  lemma AppendSpaced(cycle: seq<Entry>, e: Entry)
    requires Spaced(cycle) && (cycle != [] ==> cycle[|cycle| - 1].0 != e.0)
    ensures Spaced(cycle + [e])
  {
    var c := cycle + [e];
    forall i | 0 <= i < |c| - 1 ensures c[i].0 != c[i + 1].0 {
      assert c[i] == cycle[i];
      if i + 1 < |cycle| {
        assert c[i + 1] == cycle[i + 1];
      }
    }
  }

  /** Moving the last letter of block `idx` from `working` to the cycle keeps every block's letters. */
  lemma AppendTagged(templates: seq<seq<char>>, working: seq<seq<char>>, cycle: seq<Entry>, idx: nat)
    requires |working| == |templates| && idx < |working| && working[idx] != []
    requires forall k :: 0 <= k < |templates| ==> multiset(working[k]) + multiset(Tags(cycle, k)) == multiset(templates[k])
    ensures var letters := working[idx];
      var working' := working[idx := letters[..|letters| - 1]];
      var cycle' := cycle + [(idx, letters[|letters| - 1])];
      forall k :: 0 <= k < |templates| ==> multiset(working'[k]) + multiset(Tags(cycle', k)) == multiset(templates[k])
  {
    var letters := working[idx];
    var letter := letters[|letters| - 1];
    assert letters == letters[..|letters| - 1] + [letter];
    var working' := working[idx := letters[..|letters| - 1]];
    var cycle' := cycle + [(idx, letter)];
    assert cycle'[..|cycle'| - 1] == cycle;
    forall k | 0 <= k < |templates|
      ensures multiset(working'[k]) + multiset(Tags(cycle', k)) == multiset(templates[k])
    {
      assert Tags(cycle', k) == Tags(cycle, k) + (if k == idx then [letter] else []);
      if k == idx {
        assert multiset(letters) == multiset(letters[..|letters| - 1]) + multiset{letter};
      } else {
        assert working'[k] == working[k];
      }
    }
  }

  /** A walk with no letters left pops every letter of every block once. */
  lemma WalkDone(templates: seq<seq<char>>, working: seq<seq<char>>, cycle: seq<Entry>, total: nat)
    requires InProgress(templates, working, cycle, 0, total)
    ensures Spaced(cycle) && Covers(cycle, templates) && |cycle| == total
  {
    TotalZero(working);
    assert forall k :: 0 <= k < |templates| ==> multiset(working[k]) == multiset{};
  }

  /**
   * One step of the walk: a random block that still has letters and is not
   * the block just used gives up its last letter; `stuck` when there is none.
   */
  method PopOne(templates: seq<seq<char>>, working: seq<seq<char>>, cycle: seq<Entry>, last: Option<nat>,
                remaining: nat, total: nat, r: Rng)
    returns (working': seq<seq<char>>, cycle': seq<Entry>, remaining': nat, stuck: bool, r': Rng)
    requires InProgress(templates, working, cycle, remaining, total)
    requires last == if cycle == [] then None else Some(cycle[|cycle| - 1].0)
    ensures InProgress(templates, working', cycle', remaining', total)
    ensures !stuck ==> remaining' < remaining
  {
    var candidates := Candidates(working, last);
    if candidates == [] {
      return working, cycle, remaining, true, r;
    }
    var pick := Choice(candidates, r);
    var idx := pick.0;
    r' := pick.1;
    var letters := working[idx];
    PopStep(templates, working, cycle, remaining, total, idx);
    working' := working[idx := letters[..|letters| - 1]];
    cycle' := cycle + [(idx, letters[|letters| - 1])];
    remaining' := remaining - 1;
    stuck := false;
  }

  /**
   * One walk of `buildCycle`: repeatedly pop the last letter of a random block
   * that still has letters and is not the block just used; gives up when no
   * such block is left before every letter is out.
   */
  method Walk(templates: seq<seq<char>>, total: nat, r: Rng) returns (ok: bool, cycle: seq<Entry>, r': Rng)
    requires total == TotalLetters(templates)
    ensures ok ==> Spaced(cycle) && Covers(cycle, templates) && |cycle| == total
  {
    var working;
    working, r' := ShuffledCopies(templates, r);
    TotalSameLengths(working, templates);
    cycle := [];
    var remaining := total;
    assert InProgress(templates, working, cycle, remaining, total);
    hide InProgress;
    while remaining > 0
      invariant InProgress(templates, working, cycle, remaining, total)
      decreases remaining
    {
      var last: Option<nat> := if cycle == [] then None else Some(cycle[|cycle| - 1].0);
      var stuck;
      working, cycle, remaining, stuck, r' := PopOne(templates, working, cycle, last, remaining, total, r');
      if stuck {
        break;
      }
    }
    ok := remaining == 0;
    if ok {
      WalkDone(templates, working, cycle, total);
    }
  }

  /** The rotation is ready for use: its first block is not `avoid` and differs from its last. */
  predicate Fits(c: seq<Entry>, avoid: Option<nat>) {
    |c| > 0 && avoid != Some(c[0].0) && c[0].0 != c[|c| - 1].0
  }

  /** The loop over shuffled shifts: the first rotation that fits. */
  method FirstFit(c: seq<Entry>, shifts: seq<nat>, avoid: Option<nat>) returns (res: Option<seq<Entry>>)
    requires forall t :: 0 <= t < |shifts| ==> shifts[t] <= |c|
    ensures res.Some? ==> IsRotation(res.value, c) && Fits(res.value, avoid)
    ensures res.None? <==> forall t :: 0 <= t < |shifts| ==> !Fits(Rotate(c, shifts[t]), avoid)
  {
    for t := 0 to |shifts|
      invariant forall u :: 0 <= u < t ==> !Fits(Rotate(c, shifts[u]), avoid)
    {
      var rotated := c[shifts[t]..] + c[..shifts[t]];
      assert rotated == Rotate(c, shifts[t]);
      if Fits(rotated, avoid) {
        return Some(rotated);
      }
    }
    return None;
  }

  /** A shuffled list of the shifts `lo`, ..., `hi - 1`. */
  method ShuffledRange(lo: nat, hi: nat, r: Rng) returns (shifts: seq<nat>, r': Rng)
    requires lo <= hi
    ensures forall s :: s in shifts <==> lo <= s < hi
    ensures forall t :: 0 <= t < |shifts| ==> lo <= shifts[t] < hi
  {
    var range: seq<nat> := seq(hi - lo, i requires 0 <= i < hi - lo => lo + i);
    shifts, r' := Shuffled(range, r);
    assert forall t :: 0 <= t < |shifts| ==> shifts[t] in multiset(range);
    forall s ensures s in shifts <==> lo <= s < hi {
      assert s in shifts <==> s in multiset(range);
      if lo <= s < hi {
        assert range[s - lo] == s;
      }
    }
  }

  /**
   * The repair of a walk whose ends share a block: try the shifts 1 to
   * `|w| - 2` in random order and keep the first rotation with different end
   * blocks.
   */
  method RepairEnds(w: seq<Entry>, r: Rng) returns (adjusted: Option<seq<Entry>>, r': Rng)
    requires |w| > 1
    ensures adjusted.Some? ==> IsRotation(adjusted.value, w) && Fits(adjusted.value, None)
    ensures adjusted.None? <==> forall s :: 1 <= s < |w| - 1 ==> !Fits(Rotate(w, s), None)
  {
    var shifts;
    shifts, r' := ShuffledRange(1, |w| - 1, r);
    adjusted := FirstFit(w, shifts, None);
    if adjusted.None? {
      forall s | 1 <= s < |w| - 1 ensures !Fits(Rotate(w, s), None) {
        assert s in shifts;
        var t :| 0 <= t < |shifts| && shifts[t] == s;
      }
    }
  }

  /**
   * `buildCycle`: up to `attemptLimit` walks; the first that pops every
   * letter is returned, rotated by the repair when its ends share a block,
   * and a walk whose repair fails is retried.
   */
  method BuildCycle(templates: seq<seq<char>>, total: nat, attemptLimit: nat, r: Rng)
    returns (cycle: Option<seq<Entry>>, r': Rng, ghost walk: seq<Entry>)
    requires total == TotalLetters(templates)
    ensures cycle.Some? ==> Covers(cycle.value, templates) && |cycle.value| == total
    ensures cycle.Some? ==> Spaced(walk) && IsRotation(cycle.value, walk)
    ensures cycle.Some? && |cycle.value| > 1 ==> cycle.value[0].0 != cycle.value[|cycle.value| - 1].0
  {
    r' := r;
    walk := [];
    for attempt := 0 to attemptLimit {
      var ok, w;
      ok, w, r' := Walk(templates, total, r');
      if !ok {
        continue;
      }
      if |w| > 1 && w[0].0 == w[|w| - 1].0 {
        var adjusted;
        adjusted, r' := RepairEnds(w, r');
        if adjusted.None? {
          continue;
        }
        var k :| 0 <= k <= |w| && adjusted.value == Rotate(w, k);
        CoversRotation(w, k, templates);
        return adjusted, r', w;
      }
      assert w == Rotate(w, 0);
      return Some(w), r', w;
    }
    return None, r', walk;
  }

  /**
   * The repair rotation cuts a walk between two entries and joins its old
   * ends: when those shared a block, the rotated cycle holds two consecutive
   * letters of one block. Only the per-letter check when chaining keeps such
   * a pair out of the result.
   */
  lemma RepairJoinsEnds(w: seq<Entry>, s: nat)
    requires 1 <= s < |w| - 1 && w[0].0 == w[|w| - 1].0
    ensures Rotate(w, s)[|w| - s - 1] == w[|w| - 1] && Rotate(w, s)[|w| - s] == w[0]
    ensures !Spaced(Rotate(w, s))
  {
    var c := Rotate(w, s);
    assert c[|w| - s - 1].0 == c[(|w| - s - 1) + 1].0;
  }

  /**
   * `rotateForPrevious`: no previous block leaves the cycle as it is; a
   * single entry is kept unless it is on the previous block; otherwise the
   * shifts are tried in random order for a rotation that starts away from
   * the previous block and has different end blocks.
   */
  method RotateForPrevious(cycle: seq<Entry>, prev: Option<nat>, r: Rng) returns (res: Option<seq<Entry>>, r': Rng)
    requires |cycle| > 0
    ensures prev.None? ==> res == Some(cycle)
    ensures prev.Some? && |cycle| == 1 ==> res == (if cycle[0].0 == prev.value then None else Some(cycle))
    ensures prev.Some? && |cycle| > 1 ==>
      (res.None? <==> forall s :: 0 <= s < |cycle| ==> !Fits(Rotate(cycle, s), prev))
    ensures res.Some? ==> IsRotation(res.value, cycle) && |res.value| == |cycle|
    ensures res.Some? && prev.Some? ==> res.value[0].0 != prev.value
    ensures res.Some? && prev.Some? && |cycle| > 1 ==> Fits(res.value, prev)
  {
    r' := r;
    if prev.None? {
      assert cycle == Rotate(cycle, 0);
      return Some(cycle), r';
    }
    if |cycle| == 1 {
      assert cycle == Rotate(cycle, 0);
      return (if cycle[0].0 == prev.value then None else Some(cycle)), r';
    }
    var shifts;
    shifts, r' := ShuffledRange(0, |cycle|, r');
    res := FirstFit(cycle, shifts, prev);
    if res.None? {
      forall s | 0 <= s < |cycle| ensures !Fits(Rotate(cycle, s), prev) {
        assert s in shifts;
        var t :| 0 <= t < |shifts| && shifts[t] == s;
      }
    }
  }

  // ---------------------------------------------------------------------------
  // Chaining the cycles

  /** The pieces of the chain after the trim: block strings, their letters, and `letterToBlockIdx`. */
  datatype Prepared = Prepared(strings: seq<string>, templates: seq<seq<char>>, index: map<char, nat>)

  /** Each letter comes from the block recorded for it, and consecutive letters from different blocks. */
  ghost predicate Placed(letters: seq<char>, blockOf: seq<nat>, templates: seq<seq<char>>) {
    && |blockOf| == |letters|
    && (forall i :: 0 <= i < |letters| ==> blockOf[i] < |templates| && letters[i] in templates[blockOf[i]])
    && (forall i :: 0 <= i < |letters| - 1 ==> blockOf[i] != blockOf[i + 1])
  }

  /** Appending a letter of a block other than the last one used keeps the letters placed. */
  lemma PlaceOne(letters: seq<char>, blockOf: seq<nat>, templates: seq<seq<char>>, letter: char, k: nat)
    requires Placed(letters, blockOf, templates)
    requires k < |templates| && letter in templates[k] && (blockOf != [] ==> blockOf[|blockOf| - 1] != k)
    ensures Placed(letters + [letter], blockOf + [k], templates)
  {
  }

  /**
   * What a returned chain promises: its letters are placed and, for more
   * than one letter, the first and last letters have different blocks in
   * `letterToBlockIdx`.
   */
  ghost predicate WellSpaced(letters: seq<char>, blockOf: seq<nat>, p: Prepared) {
    && Placed(letters, blockOf, p.templates)
    && (|letters| > 1 ==>
          && letters[0] in p.index && letters[|letters| - 1] in p.index
          && p.index[letters[0]] != p.index[letters[|letters| - 1]])
  }

  /** `_sequence_contains_pair`: the pair occurs at some index, the last letter followed by the first. */
  predicate ContainsPair(s: seq<char>, pair: (char, char)) {
    |s| >= 2 && exists i :: 0 <= i < |s| && PairAt(s, i, pair)
  }

  /** `s[i]` followed, cyclically, by `s[(i + 1) % |s|]` is the pair. */
  predicate PairAt(s: seq<char>, i: nat, pair: (char, char))
    requires i < |s|
  {
    s[i] == pair.0 && s[(i + 1) % |s|] == pair.1
  }

  /** The index loop of `_sequence_contains_pair`. */
  method SequenceContainsPair(s: seq<char>, pair: (char, char)) returns (found: bool)
    ensures found <==> ContainsPair(s, pair)
  {
    if |s| < 2 {
      return false;
    }
    for idx := 0 to |s|
      invariant forall k :: 0 <= k < idx ==> !PairAt(s, k, pair)
    {
      if s[idx] == pair.0 && s[(idx + 1) % |s|] == pair.1 {
        assert PairAt(s, idx, pair);
        return true;
      }
    }
    return false;
  }

  /**
   * One append pass: the letters of `cycle` in order until `remaining` runs
   * out, failing on a letter from the block just used.
   */
  method AppendCycle(cycle: seq<Entry>, templates: seq<seq<char>>, result: seq<char>, ghost blockOf: seq<nat>,
                     prev: Option<nat>, remaining: nat)
    returns (result': seq<char>, ghost blockOf': seq<nat>, prev': Option<nat>, remaining': nat, failed: bool)
    requires Covers(cycle, templates) && |cycle| > 0
    requires Placed(result, blockOf, templates)
    requires prev == if result == [] then None else Some(blockOf[|blockOf| - 1])
    ensures |result'| + remaining' == |result| + remaining
    ensures !failed && remaining > 0 ==> remaining' < remaining
    ensures Placed(result', blockOf', templates)
    ensures prev' == if result' == [] then None else Some(blockOf'[|blockOf'| - 1])
  {
    result', blockOf', prev', remaining', failed := result, blockOf, prev, remaining, false;
    assert |blockOf'| == |result'|;
    hide Placed, Covers;
    var j := 0;
    while j < |cycle|
      invariant 0 <= j <= |cycle|
      invariant |result'| + remaining' == |result| + remaining
      invariant remaining' + j == remaining
      invariant |blockOf'| == |result'|
      invariant Placed(result', blockOf', templates)
      invariant prev' == if result' == [] then None else Some(blockOf'[|blockOf'| - 1])
    {
      var (blockIdx, letter) := cycle[j];
      if remaining' == 0 {
        break;
      }
      if prev'.Some? && blockIdx == prev'.value {
        failed := true;
        break;
      }
      CoveredEntry(cycle, templates, j);
      PlaceOne(result', blockOf', templates, letter, blockIdx);
      result' := result' + [letter];
      blockOf' := blockOf' + [blockIdx];
      prev' := Some(blockIdx);
      remaining' := remaining' - 1;
      j := j + 1;
    }
  }

  /** The inner retry loop: up to `limit` cycles from `buildCycle`, the first that `rotateForPrevious` accepts. */
  method NextCycle(templates: seq<seq<char>>, total: nat, limit: nat, prev: Option<nat>, r: Rng)
    returns (cycle: Option<seq<Entry>>, r': Rng)
    requires total == TotalLetters(templates) && total > 0
    ensures cycle.Some? ==> Covers(cycle.value, templates) && |cycle.value| > 0
    ensures cycle.Some? && prev.Some? ==> cycle.value[0].0 != prev.value
  {
    r' := r;
    for i := 0 to limit {
      var candidate;
      ghost var walk;
      candidate, r', walk := BuildCycle(templates, total, limit, r');
      if candidate.None? {
        continue;
      }
      var adjusted;
      adjusted, r' := RotateForPrevious(candidate.value, prev, r');
      if adjusted.None? {
        continue;
      }
      var k :| 0 <= k <= |candidate.value| && adjusted.value == Rotate(candidate.value, k);
      CoversRotation(candidate.value, k, templates);
      return adjusted, r';
    }
    return None, r';
  }

  /**
   * One outer attempt: cycles appended until `count` letters are out, each
   * started away from the block of the letter before it.
   */
  method FillChain(templates: seq<seq<char>>, total: nat, count: nat, limit: nat, r: Rng)
    returns (result: seq<char>, ghost blockOf: seq<nat>, failed: bool, r': Rng)
    requires total == TotalLetters(templates) && total > 0
    ensures !failed ==> |result| == count
    ensures Placed(result, blockOf, templates)
  {
    result, blockOf, failed, r' := [], [], false, r;
    var prev: Option<nat> := None;
    var remaining := count;
    while remaining > 0
      invariant |result| + remaining == count
      invariant Placed(result, blockOf, templates)
      invariant prev == if result == [] then None else Some(blockOf[|blockOf| - 1])
      decreases remaining
    {
      var cycle;
      cycle, r' := NextCycle(templates, total, limit, prev, r');
      if cycle.None? {
        failed := true;
        break;
      }
      result, blockOf, prev, remaining, failed := AppendCycle(cycle.value, templates, result, blockOf, prev, remaining);
      if failed {
        break;
      }
    }
  }

  /**
   * The outer attempt loop: a filled chain is kept when its end letters are
   * on different blocks of `letterToBlockIdx` and, given a pair, when it
   * contains the pair; otherwise the next attempt starts over.
   */
  method ChainLetters(p: Prepared, count: nat, limit: nat, pair: Option<(char, char)>, r: Rng)
    returns (res: Option<seq<char>>, r': Rng, ghost blockOf: seq<nat>)
    requires |p.templates| > 0 && forall k :: 0 <= k < |p.templates| ==> p.templates[k] != []
    ensures res.Some? ==> |res.value| == count && WellSpaced(res.value, blockOf, p)
    ensures res.Some? && pair.Some? ==> ContainsPair(res.value, pair.value)
  {
    r', blockOf := r, [];
    var total := TotalLetters(p.templates);
    TotalPositive(p.templates);
    for attempt := 0 to limit {
      var result, failed;
      ghost var tags;
      result, tags, failed, r' := FillChain(p.templates, total, count, limit, r');
      if failed || |result| < count {
        continue;
      }
      if |result| > 1 {
        var first, last := result[0], result[|result| - 1];
        if first !in p.index || last !in p.index || p.index[first] == p.index[last] {
          continue;
        }
      }
      if pair.Some? {
        var found := SequenceContainsPair(result, pair.value);
        if !found {
          continue;
        }
      }
      return Some(result), r', tags;
    }
    return None, r', blockOf;
  }

  /**
   * The trim and the tables, as both generators do them: the errors for
   * nothing left after the trim, no usable letter, and, for more than one
   * letter, fewer than two usable blocks.
   */
  method Prepare(blocks: seq<string>, buffer: string, count: nat) returns (res: Result<Prepared, ChainError>)
    ensures res == Err(NothingAfterTrim) <==> TrimPoint(blocks, buffer) == |blocks|
    ensures TrimPoint(blocks, buffer) < |blocks| ==>
      (res == Err(NoUsableLetters) <==> UsableBlocks(blocks[TrimPoint(blocks, buffer)..], buffer) == [])
    ensures TrimPoint(blocks, buffer) < |blocks| && UsableBlocks(blocks[TrimPoint(blocks, buffer)..], buffer) != [] ==>
      (res == Err(TooFewBlocks) <==> count > 1 && |UsableBlocks(blocks[TrimPoint(blocks, buffer)..], buffer)| == 1)
    ensures res.Err? ==> res.error in {NothingAfterTrim, NoUsableLetters, TooFewBlocks}
    ensures res.Ok? ==>
      && res.value.strings == UsableBlocks(blocks[TrimPoint(blocks, buffer)..], buffer)
      && res.value.templates == LettersOf(res.value.strings, buffer)
      && (forall c :: LastBlock(res.value.strings, buffer, c) == (if c in res.value.index then Some(res.value.index[c]) else None))
      && |res.value.templates| > 0 && (count > 1 ==> |res.value.templates| > 1)
      && (forall k :: 0 <= k < |res.value.templates| ==> res.value.templates[k] != [])
  {
    hide Letters, UsableBlocks, LettersOf, LastBlock, TrimPoint;
    var start := FindTrimStart(blocks, buffer);
    var trimmed := blocks[start..];
    if trimmed == [] {
      return Err(NothingAfterTrim);
    }
    var strings, templates := SelectBlocks(trimmed, buffer);
    if templates == [] {
      return Err(NoUsableLetters);
    }
    if count > 1 && |strings| <= 1 {
      return Err(TooFewBlocks);
    }
    var index := LetterIndex(strings, buffer);
    res := Ok(Prepared(strings, templates, index));
  }

  // ---------------------------------------------------------------------------
  // The generators

  /**
   * `generatePieceLetters` (web/chain.js): a negative count throws, zero
   * gives no letters; otherwise the blocks of `normalizeBlocks`, the trim,
   * and the attempt loop with `max(1, maxAttempts)` tries at every level.
   */
  method GeneratePieceLetters(count: int, scheme: string, buffer: string, maxAttempts: int, r: Rng)
    returns (res: Result<seq<char>, ChainError>, r': Rng, ghost blockOf: seq<nat>, ghost p: Prepared)
    ensures res == Err(NegativeCount) <==> count < 0
    ensures count == 0 ==> res == Ok([])
    ensures res.Err? ==> res.error in {NegativeCount, NothingAfterTrim, NoUsableLetters, TooFewBlocks, SpacingFailed}
    ensures count > 0 ==>
      (res == Err(NothingAfterTrim) <==> TrimPoint(NormalizeBlocks(scheme), buffer) == |NormalizeBlocks(scheme)|)
    ensures count > 0 && TrimPoint(NormalizeBlocks(scheme), buffer) < |NormalizeBlocks(scheme)| ==>
      (res == Err(NoUsableLetters) <==>
         UsableBlocks(NormalizeBlocks(scheme)[TrimPoint(NormalizeBlocks(scheme), buffer)..], buffer) == [])
    ensures (count > 0 && TrimPoint(NormalizeBlocks(scheme), buffer) < |NormalizeBlocks(scheme)|
             && UsableBlocks(NormalizeBlocks(scheme)[TrimPoint(NormalizeBlocks(scheme), buffer)..], buffer) != []) ==>
      (res == Err(TooFewBlocks) <==>
         count > 1 && |UsableBlocks(NormalizeBlocks(scheme)[TrimPoint(NormalizeBlocks(scheme), buffer)..], buffer)| == 1)
    ensures res.Ok? && count > 0 ==>
      && p.strings == UsableBlocks(NormalizeBlocks(scheme)[TrimPoint(NormalizeBlocks(scheme), buffer)..], buffer)
      && p.templates == LettersOf(p.strings, buffer)
      && |res.value| == count && WellSpaced(res.value, blockOf, p)
  {
    hide FiveCycle.NormalizePairPy, NormalizeBlocksPy, NormalizeBlocks, UsableBlocks, LettersOf, TrimPoint, WellSpaced, ContainsPair, LastBlock, Letters, Placed;
    r', blockOf, p := r, [], Prepared([], [], map[]);
    if count < 0 {
      return Err(NegativeCount), r', blockOf, p;
    }
    if count == 0 {
      return Ok([]), r', blockOf, p;
    }
    var prepared := Prepare(NormalizeBlocks(scheme), buffer, count);
    if prepared.Err? {
      return Err(prepared.error), r', blockOf, p;
    }
    p := prepared.value;
    var letters;
    letters, r', blockOf := ChainLetters(prepared.value, count, FiveCycle.AttemptCount(maxAttempts), None, r');
    if letters.None? {
      return Err(SpacingFailed), r', blockOf, p;
    }
    res := Ok(letters.value);
  }

  /**
   * The forced-pair checks of `generate_piece_letters`, after the tables are
   * built: two different letters, both in `letter_to_block_idx` (the missing
   * ones listed in order), on different blocks.
   */
  function CheckPair(index: map<char, nat>, pair: (char, char)): (r: Option<ChainError>)
    ensures r.None? <==> pair.0 != pair.1 && pair.0 in index && pair.1 in index && index[pair.0] != index[pair.1]
    ensures pair.0 == pair.1 ==> r == Some(PairLettersEqual)
    ensures r.Some? ==> r.value in {PairLettersEqual, PairSameBlock} || r.value.PairLettersMissing?
    ensures r.Some? && r.value.PairLettersMissing? ==>
      && pair.0 != pair.1 && r.value.missing != []
      && forall c :: c in r.value.missing <==> (c == pair.0 || c == pair.1) && c !in index
  {
    var (x, y) := pair;
    var missing := (if x in index then [] else [x]) + (if y in index then [] else [y]);
    if x == y then Some(PairLettersEqual)
    else if missing != [] then Some(PairLettersMissing(missing))
    else if index[x] == index[y] then Some(PairSameBlock)
    else None
  }

  /**
   * `generate_piece_letters` (python/comm_drill_trainer.py): the checks of
   * the JavaScript generator on blocks split at single blanks, with the
   * forced pair normalized first, refused for fewer than two letters, checked
   * against the tables, and required in the chain.
   */
  method GeneratePieceLettersPy(count: int, scheme: string, buffer: string, maxAttempts: int,
                                forced: FiveCycle.PairInput, r: Rng)
    returns (res: Result<seq<char>, ChainError>, r': Rng, ghost blockOf: seq<nat>, ghost p: Prepared)
    ensures res == Err(NegativeCount) <==> count < 0
    ensures count == 0 ==> res == Ok([])
    ensures count > 0 && FiveCycle.NormalizePairPy(forced).Err? ==>
      res == Err(BadPair(FiveCycle.NormalizePairPy(forced).error))
    ensures count > 0 && FiveCycle.NormalizePairPy(forced).Ok? && FiveCycle.NormalizePairPy(forced).value.Some? && count < 2 ==>
      res == Err(PairNeedsTwoLetters)
    ensures SetupReached(count, forced) ==>
      (res == Err(NothingAfterTrim) <==> TrimPoint(NormalizeBlocksPy(scheme), buffer) == |NormalizeBlocksPy(scheme)|)
    ensures SetupReached(count, forced) && TrimPoint(NormalizeBlocksPy(scheme), buffer) < |NormalizeBlocksPy(scheme)| ==>
      (res == Err(NoUsableLetters) <==>
         UsableBlocks(NormalizeBlocksPy(scheme)[TrimPoint(NormalizeBlocksPy(scheme), buffer)..], buffer) == [])
    ensures (SetupReached(count, forced) && TrimPoint(NormalizeBlocksPy(scheme), buffer) < |NormalizeBlocksPy(scheme)|
             && UsableBlocks(NormalizeBlocksPy(scheme)[TrimPoint(NormalizeBlocksPy(scheme), buffer)..], buffer) != []) ==>
      (res == Err(TooFewBlocks) <==>
         count > 1 && |UsableBlocks(NormalizeBlocksPy(scheme)[TrimPoint(NormalizeBlocksPy(scheme), buffer)..], buffer)| == 1)
    ensures res.Ok? && count > 0 ==>
      && p.strings == UsableBlocks(NormalizeBlocksPy(scheme)[TrimPoint(NormalizeBlocksPy(scheme), buffer)..], buffer)
      && p.templates == LettersOf(p.strings, buffer)
      && |res.value| == count && WellSpaced(res.value, blockOf, p)
    ensures res.Ok? && count > 0 ==>
      FiveCycle.NormalizePairPy(forced).Ok? &&
      (FiveCycle.NormalizePairPy(forced).value.Some? ==>
         && CheckPair(p.index, FiveCycle.NormalizePairPy(forced).value.value).None?
         && ContainsPair(res.value, FiveCycle.NormalizePairPy(forced).value.value))
  {
    hide FiveCycle.NormalizePairPy, NormalizeBlocksPy, NormalizeBlocks, UsableBlocks, LettersOf, TrimPoint, WellSpaced, ContainsPair, LastBlock, Letters, Placed;
    r', blockOf, p := r, [], Prepared([], [], map[]);
    if count < 0 {
      return Err(NegativeCount), r', blockOf, p;
    }
    if count == 0 {
      return Ok([]), r', blockOf, p;
    }
    var normalized := FiveCycle.NormalizePairPy(forced);
    if normalized.Err? {
      return Err(BadPair(normalized.error)), r', blockOf, p;
    }
    var pair := normalized.value;
    if pair.Some? && count < 2 {
      return Err(PairNeedsTwoLetters), r', blockOf, p;
    }
    var prepared := Prepare(NormalizeBlocksPy(scheme), buffer, count);
    if prepared.Err? {
      return Err(prepared.error), r', blockOf, p;
    }
    p := prepared.value;
    res, r', blockOf := PairedChain(prepared.value, count, FiveCycle.AttemptCount(maxAttempts), pair, r');
  }

  /** The Python generator gets past the count and forced-pair checks to the block setup. */
  predicate SetupReached(count: int, forced: FiveCycle.PairInput) {
    && count > 0
    && FiveCycle.NormalizePairPy(forced).Ok?
    && !(FiveCycle.NormalizePairPy(forced).value.Some? && count < 2)
  }

  /** The forced-pair checks, then the attempt loop with the pair required in the chain. */
  method PairedChain(p: Prepared, count: nat, limit: nat, pair: Option<(char, char)>, r: Rng)
    returns (res: Result<seq<char>, ChainError>, r': Rng, ghost blockOf: seq<nat>)
    requires |p.templates| > 0 && forall k :: 0 <= k < |p.templates| ==> p.templates[k] != []
    ensures pair.Some? && CheckPair(p.index, pair.value).Some? ==> res == Err(CheckPair(p.index, pair.value).value)
    ensures res.Err? ==> res.error == SpacingFailed || (pair.Some? && CheckPair(p.index, pair.value) == Some(res.error))
    ensures res.Err? ==> res.error in {SpacingFailed, PairLettersEqual, PairSameBlock} || res.error.PairLettersMissing?
    ensures res.Ok? ==> |res.value| == count && WellSpaced(res.value, blockOf, p)
    ensures res.Ok? && pair.Some? ==> CheckPair(p.index, pair.value).None? && ContainsPair(res.value, pair.value)
  {
    r', blockOf := r, [];
    if pair.Some? {
      var refused := CheckPair(p.index, pair.value);
      if refused.Some? {
        return Err(refused.value), r', blockOf;
      }
    }
    var letters;
    letters, r', blockOf := ChainLetters(p, count, limit, pair, r');
    if letters.None? {
      return Err(SpacingFailed), r', blockOf;
    }
    res := Ok(letters.value);
  }
}
