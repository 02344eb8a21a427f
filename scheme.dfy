/**
 * The scheme model: raw scheme text split into letter blocks (one block per
 * physical piece, one letter per sticker), the letter -> home (block, slot)
 * table, and the trim that keeps only the blocks after the buffer's block.
 */
module Scheme {
  import opened Wrappers
  import opened Text
  import opened Seqs

  /** A position in the scheme: block index and slot (sticker) index within the block. */
  datatype Slot = Slot(pos: nat, slot: nat)

  /** `{ blocks, blockLen, letterToRefPos }`. */
  datatype SchemeData = SchemeData(blocks: seq<string>, blockLen: nat, refPos: map<char, Slot>)

  datatype SchemeError =
    | EmptyScheme
    | EmptyBlock
    | UnequalBlocks
    | DuplicateLetter(letter: char)
    | BufferNotFound
    | NoPiecesAfterBuffer

  /** One block per character: `[...token]`. */
  function Chars(s: string): (r: seq<string>)
    ensures |r| == |s|
    ensures forall i :: 0 <= i < |r| ==> r[i] == [s[i]]
  {
    seq(|s|, i requires 0 <= i < |s| => [s[i]])
  }

  lemma {:induction false} ConcatChars(s: string)
    ensures Concat(Chars(s)) == s
  {
    if |s| > 0 {
      ConcatChars(s[1..]);
      assert Chars(s)[1..] == Chars(s[1..]);
    }
  }

  lemma {:induction false} SplitNoSeparator(s: string, isSep: char -> bool)
    requires forall i :: 0 <= i < |s| ==> !isSep(s[i])
    ensures Split(s, isSep) == [s]
  {
    if |s| > 0 {
      SplitNoSeparator(s[1..], isSep);
      assert [s[0]] + s[1..] == s;
    }
  }

  /** No block holds a character that `sep` selects. */
  ghost predicate FreeOf(blocks: seq<string>, sep: char -> bool) {
    forall i, j :: 0 <= i < |blocks| && 0 <= j < |blocks[i]| ==> !sep(blocks[i][j])
  }

  lemma TrimmedCharIsEmptyOrSelf(c: char)
    ensures Trim([c], IsJsSpace) == if IsJsSpace(c) then "" else [c]
  {
    if IsJsSpace(c) {
      assert TrimStart([c], IsJsSpace) == TrimStart([c][1..], IsJsSpace);
    }
  }

  /** The tokens of `source.split(' ').map((b) => b.trim()).filter(Boolean)`. */
  function JsTokens(source: string): seq<string> {
    NonEmpty(TrimAll(Split(source, IsBlank), IsJsSpace))
  }

  /**
   * `normalizeBlocks` (five_cycle.js) and the same inline code in web/chain.js:
   * blocks separated by single blanks, each trimmed, empty ones dropped; a
   * single token longer than one character is read as flat notation, one
   * block per non-white-space character.
   */
  function NormalizeBlocks(source: string): (blocks: seq<string>)
    ensures forall i :: 0 <= i < |blocks| ==> |blocks[i]| > 0
    ensures FreeOf(blocks, IsBlank)
    ensures !(|blocks| == 1 && |blocks[0]| > 1)
    ensures RemoveWhere(Concat(blocks), IsJsSpace) == RemoveWhere(source, IsJsSpace)
  {
    var tokens := JsTokens(source);
    JsTokensContent(source);
    if |tokens| == 1 && |tokens[0]| > 1 then
      FlatCase(source);
      FlatBlocks(tokens[0])
    else tokens
  }

  lemma FlatCase(source: string)
    requires |JsTokens(source)| == 1
    ensures var blocks := FlatBlocks(JsTokens(source)[0]);
      && FreeOf(blocks, IsBlank)
      && !(|blocks| == 1 && |blocks[0]| > 1)
      && RemoveWhere(Concat(blocks), IsJsSpace) == RemoveWhere(source, IsJsSpace)
  {
    var tokens := JsTokens(source);
    JsTokensContent(source);
    assert Concat(tokens) == tokens[0] + Concat([]);
    assert tokens[0] + Concat([]) == tokens[0];
    var blocks := FlatBlocks(tokens[0]);
    forall i, j | 0 <= i < |blocks| && 0 <= j < |blocks[i]| ensures !IsBlank(blocks[i][j]) {
      assert j == 0 && !IsJsSpace(blocks[i][0]);
    }
  }

  /** `[...token].map((b) => b.trim()).filter(Boolean)`: one block per non-white-space character. */
  function FlatBlocks(t: string): (blocks: seq<string>)
    ensures forall i :: 0 <= i < |blocks| ==> |blocks[i]| == 1 && !IsJsSpace(blocks[i][0])
    ensures RemoveWhere(Concat(blocks), IsJsSpace) == RemoveWhere(t, IsJsSpace)
  {
    FlatContent(t);
    OneCharBlocks(t);
    NonEmpty(TrimAll(Chars(t), IsJsSpace))
  }

  lemma JsTokensContent(source: string)
    ensures FreeOf(JsTokens(source), IsBlank)
    ensures RemoveWhere(Concat(JsTokens(source)), IsJsSpace) == RemoveWhere(source, IsJsSpace)
  {
    var parts := Split(source, IsBlank);
    TrimAllKeepsFree(parts, IsBlank, IsJsSpace);
    NonEmptyKeepsFree(TrimAll(parts, IsJsSpace), IsBlank);
    ConcatNonEmpty(TrimAll(parts, IsJsSpace));
    RemoveConcat(parts, IsJsSpace);
    ConcatSplit(source, IsBlank);
    RemoveBlankThenSpace(source);
  }

  lemma FlatContent(t: string)
    ensures RemoveWhere(Concat(NonEmpty(TrimAll(Chars(t), IsJsSpace))), IsJsSpace) == RemoveWhere(t, IsJsSpace)
  {
    ConcatNonEmpty(TrimAll(Chars(t), IsJsSpace));
    RemoveConcat(Chars(t), IsJsSpace);
    ConcatChars(t);
  }

  /** After the flat split, every block is one non-white-space character. */
  lemma {:induction false} OneCharBlocks(t: string)
    ensures forall i :: 0 <= i < |NonEmpty(TrimAll(Chars(t), IsJsSpace))| ==>
      |NonEmpty(TrimAll(Chars(t), IsJsSpace))[i]| == 1 && !IsJsSpace(NonEmpty(TrimAll(Chars(t), IsJsSpace))[i][0])
  {
    if |t| > 0 {
      OneCharBlocks(t[1..]);
      assert Chars(t)[1..] == Chars(t[1..]);
      TrimmedCharIsEmptyOrSelf(t[0]);
    }
  }

  lemma {:induction false} TrimAllKeepsFree(parts: seq<string>, sep: char -> bool, ws: char -> bool)
    requires FreeOf(parts, sep)
    ensures FreeOf(TrimAll(parts, ws), sep)
  {
    if |parts| > 0 {
      TrimAllKeepsFree(parts[1..], sep, ws);
      TrimKeepsFree(parts[0], sep, ws);
      var r := TrimAll(parts, ws);
      assert r[0] == Trim(parts[0], ws) && r[1..] == TrimAll(parts[1..], ws);
      forall i, j | 0 <= i < |r| && 0 <= j < |r[i]| ensures !sep(r[i][j]) {
        if i > 0 {
          assert r[i] == r[1..][i - 1];
        }
      }
    }
  }

  /** Trimming a string keeps only characters it had. */
  lemma TrimKeepsFree(s: string, sep: char -> bool, ws: char -> bool)
    requires forall j :: 0 <= j < |s| ==> !sep(s[j])
    ensures forall j :: 0 <= j < |Trim(s, ws)| ==> !sep(Trim(s, ws)[j])
  {
    var start := TrimStart(s, ws);
    FreeSlice(s, sep, |s| - |start|, |s|);
    var t := TrimEnd(start, ws);
    FreeSlice(start, sep, 0, |t|);
    assert Trim(s, ws) == t;
  }

  lemma FreeSlice(s: string, sep: char -> bool, lo: nat, hi: nat)
    requires lo <= hi <= |s| && forall j :: 0 <= j < |s| ==> !sep(s[j])
    ensures forall j :: 0 <= j < hi - lo ==> !sep(s[lo..hi][j])
  {
    forall j | 0 <= j < hi - lo ensures !sep(s[lo..hi][j]) {
      assert s[lo..hi][j] == s[lo + j];
    }
  }

  lemma {:induction false} NonEmptyKeepsFree(parts: seq<string>, sep: char -> bool)
    requires FreeOf(parts, sep)
    ensures FreeOf(NonEmpty(parts), sep)
  {
    if |parts| > 0 {
      NonEmptyKeepsFree(parts[1..], sep);
    }
  }

  /**
   * Flat notation: a scheme with no blank and more than one character after
   * trimming becomes one block per non-white-space character.
   */
  lemma FlatNotation(source: string)
    requires forall i :: 0 <= i < |source| ==> source[i] != ' '
    requires |Trim(source, IsJsSpace)| > 1
    ensures forall i :: 0 <= i < |NormalizeBlocks(source)| ==> |NormalizeBlocks(source)[i]| == 1
    ensures Concat(NormalizeBlocks(source)) == RemoveWhere(source, IsJsSpace)
  {
    SplitNoSeparator(source, IsBlank);
    var t := Trim(source, IsJsSpace);
    assert TrimAll([source], IsJsSpace) == [t];
    assert JsTokens(source) == [t];
    NoSpaceConcat(FlatBlocks(t));
    RemoveTrim(source, IsJsSpace);
    FlatContent(t);
  }

  /** A text without white space is unchanged by removing white space. */
  lemma {:induction false} RemoveNothing(s: string, drop: char -> bool)
    requires forall i :: 0 <= i < |s| ==> !drop(s[i])
    ensures RemoveWhere(s, drop) == s
  {
    if |s| > 0 {
      RemoveNothing(s[1..], drop);
    }
  }

  lemma {:induction false} NoSpaceConcat(blocks: seq<string>)
    requires forall i :: 0 <= i < |blocks| ==> |blocks[i]| == 1 && !IsJsSpace(blocks[i][0])
    ensures RemoveWhere(Concat(blocks), IsJsSpace) == Concat(blocks)
  {
    if |blocks| > 0 {
      NoSpaceConcat(blocks[1..]);
      assert blocks[0] == [blocks[0][0]];
      RemoveWhereAppend(blocks[0], Concat(blocks[1..]), IsJsSpace);
    }
  }

  /**
   * `_normalize_blocks` (python/five_cycle.py) and the split in
   * python/comm_drill_trainer.py: split on single blanks, empty parts
   * dropped, nothing trimmed and no flat notation.
   */
  function NormalizeBlocksPy(source: string): (blocks: seq<string>)
    ensures forall i :: 0 <= i < |blocks| ==> |blocks[i]| > 0
    ensures FreeOf(blocks, IsBlank)
    ensures Concat(blocks) == RemoveWhere(source, IsBlank)
  {
    var parts := Split(source, IsBlank);
    NonEmptyKeepsFree(parts, IsBlank);
    ConcatNonEmpty(parts);
    ConcatSplit(source, IsBlank);
    NonEmpty(parts)
  }

  /** A blank-free scheme is one block in the Python parser: there is no flat notation. */
  lemma PyHasNoFlatNotation(source: string)
    requires |source| > 0 && forall i :: 0 <= i < |source| ==> source[i] != ' '
    ensures NormalizeBlocksPy(source) == [source]
  {
    SplitNoSeparator(source, IsBlank);
  }

  /**
   * `normalizeSchemeBlocks` (app.js): `[]` for empty input; otherwise the
   * runs of non-white-space, and one block per character when that leaves a
   * single token longer than one character.
   */
  function NormalizeSchemeBlocks(raw: string): (blocks: seq<string>)
    ensures |raw| == 0 ==> blocks == []
    ensures forall i :: 0 <= i < |blocks| ==> |blocks[i]| > 0
    ensures FreeOf(blocks, IsJsSpace)
    ensures !(|blocks| == 1 && |blocks[0]| > 1)
    ensures Concat(blocks) == RemoveWhere(raw, IsJsSpace)
  {
    if |raw| == 0 then []
    else
      var words := Tokens(raw);
      if |words| == 1 && |words[0]| > 1 then
        SplitSingleToken(words);
        Chars(words[0])
      else words
  }

  /** One block per character of a single white-space-free token keeps its letters. */
  lemma SplitSingleToken(words: seq<string>)
    requires |words| == 1 && |words[0]| > 1 && FreeOf(words, IsJsSpace)
    ensures forall i :: 0 <= i < |Chars(words[0])| ==> |Chars(words[0])[i]| > 0
    ensures FreeOf(Chars(words[0]), IsJsSpace)
    ensures Concat(Chars(words[0])) == Concat(words)
  {
    ConcatChars(words[0]);
    assert Concat(words[1..]) == "";
    var cs := Chars(words[0]);
    forall i, j | 0 <= i < |cs| && 0 <= j < |cs[i]| ensures !IsJsSpace(cs[i][j]) {
      assert cs[i][j] == words[0][i];
    }
  }

  /** `raw.trim().split(/\s+/).filter(Boolean)`: the runs of non-white-space. */
  function Tokens(raw: string): (words: seq<string>)
    ensures forall i :: 0 <= i < |words| ==> |words[i]| > 0
    ensures FreeOf(words, IsJsSpace)
    ensures Concat(words) == RemoveWhere(raw, IsJsSpace)
  {
    var trimmed := Trim(raw, IsJsSpace);
    NonEmptyKeepsFree(Split(trimmed, IsJsSpace), IsJsSpace);
    ConcatNonEmpty(Split(trimmed, IsJsSpace));
    ConcatSplit(trimmed, IsJsSpace);
    RemoveTrim(raw, IsJsSpace);
    NonEmpty(Split(trimmed, IsJsSpace))
  }

  // ---------------------------------------------------------------------
  // Scheme data
  // ---------------------------------------------------------------------

  /** No letter occurs at two places. */
  ghost predicate AllDistinct(blocks: seq<string>) {
    forall p1, s1, p2, s2 ::
      (0 <= p1 < |blocks| && 0 <= s1 < |blocks[p1]| && 0 <= p2 < |blocks| && 0 <= s2 < |blocks[p2]|
       && blocks[p1][s1] == blocks[p2][s2]) ==> p1 == p2 && s1 == s2
  }

  /** What `buildSchemeData` accepts: blocks present, non-empty, of one length, letters unique. */
  ghost predicate WellFormed(blocks: seq<string>) {
    && |blocks| > 0
    && |blocks[0]| > 0
    && (forall p :: 0 <= p < |blocks| ==> |blocks[p]| == |blocks[0]|)
    && AllDistinct(blocks)
  }

  /** The letter table maps every letter to its home slot and to nothing else. */
  ghost predicate Consistent(d: SchemeData) {
    && |d.blocks| > 0
    && d.blockLen > 0
    && (forall p :: 0 <= p < |d.blocks| ==> |d.blocks[p]| == d.blockLen)
    && (forall ch :: ch in d.refPos ==>
          d.refPos[ch].pos < |d.blocks| && d.refPos[ch].slot < d.blockLen
          && d.blocks[d.refPos[ch].pos][d.refPos[ch].slot] == ch)
    && (forall p, s :: 0 <= p < |d.blocks| && 0 <= s < d.blockLen ==>
          d.blocks[p][s] in d.refPos && d.refPos[d.blocks[p][s]] == Slot(p, s))
  }

  /** The letter table determines that letters are unique. */
  lemma ConsistentIsWellFormed(d: SchemeData)
    requires Consistent(d)
    ensures WellFormed(d.blocks)
  {
    forall p1, s1, p2, s2 |
      0 <= p1 < |d.blocks| && 0 <= s1 < |d.blocks[p1]| && 0 <= p2 < |d.blocks| && 0 <= s2 < |d.blocks[p2]|
      && d.blocks[p1][s1] == d.blocks[p2][s2]
      ensures p1 == p2 && s1 == s2
    {
      assert d.refPos[d.blocks[p1][s1]] == Slot(p1, s1);
      assert d.refPos[d.blocks[p2][s2]] == Slot(p2, s2);
    }
  }

  /**
   * `buildSchemeData` (five_cycle.js), `_build_scheme_data` (python/five_cycle.py)
   * and the module-level checks of python/tracer.py: reject an empty block
   * list, an empty first block, a block of another length and a repeated
   * letter, in the order the blocks are read; otherwise record each letter's
   * home (block, slot).
   */
  method BuildSchemeData(blocks: seq<string>) returns (r: Result<SchemeData, SchemeError>)
    ensures r.Ok? <==> WellFormed(blocks)
    ensures r == Err(EmptyScheme) <==> |blocks| == 0
    ensures r == Err(EmptyBlock) <==> |blocks| > 0 && |blocks[0]| == 0
    ensures r == Err(UnequalBlocks) ==> exists p :: 0 <= p < |blocks| && |blocks[p]| != |blocks[0]|
    ensures r.Err? && r.error.DuplicateLetter? ==> Repeated(blocks, r.error.letter)
    ensures r.Err? ==> r.error in {EmptyScheme, EmptyBlock, UnequalBlocks} || r.error.DuplicateLetter?
    ensures r.Ok? ==> r.value.blocks == blocks && r.value.blockLen == |blocks[0]| && Consistent(r.value)
  {
    if |blocks| == 0 {
      return Err(EmptyScheme);
    }
    var blockLen := |blocks[0]|;
    if blockLen == 0 {
      return Err(EmptyBlock);
    }
    var table: map<char, Slot> := map[];
    var pos := 0;
    while pos < |blocks|
      invariant 0 <= pos <= |blocks|
      invariant forall p :: 0 <= p < pos ==> |blocks[p]| == blockLen
      invariant TableUpTo(blocks, blockLen, pos, table)
    {
      if |blocks[pos]| != blockLen {
        return Err(UnequalBlocks);
      }
      var recorded := RecordBlock(blocks, blockLen, pos, table);
      if recorded.Err? {
        RepeatedNotDistinct(blocks, recorded.error);
        return Err(DuplicateLetter(recorded.error));
      }
      table := recorded.value;
      pos := pos + 1;
    }
    var d := SchemeData(blocks, blockLen, table);
    ConsistentIsWellFormed(d);
    return Ok(d);
  }

  /** `letter` sits at two different places. */
  ghost predicate Repeated(blocks: seq<string>, letter: char) {
    exists p1, s1, p2, s2 ::
      0 <= p1 < |blocks| && 0 <= s1 < |blocks[p1]| && 0 <= p2 < |blocks| && 0 <= s2 < |blocks[p2]|
      && Slot(p1, s1) != Slot(p2, s2) && blocks[p1][s1] == letter && blocks[p2][s2] == letter
  }

  lemma RepeatedNotDistinct(blocks: seq<string>, letter: char)
    requires Repeated(blocks, letter)
    ensures !AllDistinct(blocks)
  {
  }

  /** The letter table holds exactly the letters of the first `pos` blocks, each at its home. */
  ghost predicate TableUpTo(blocks: seq<string>, blockLen: nat, pos: nat, table: map<char, Slot>)
    requires pos <= |blocks| && forall p :: 0 <= p < pos ==> |blocks[p]| == blockLen
  {
    && (forall ch :: ch in table ==>
          table[ch].pos < pos && table[ch].slot < blockLen && blocks[table[ch].pos][table[ch].slot] == ch)
    && (forall p, s :: 0 <= p < pos && 0 <= s < blockLen ==>
          blocks[p][s] in table && table[blocks[p][s]] == Slot(p, s))
  }

  /** The inner loop of `buildSchemeData`: record block `pos` slot by slot; the repeated letter where it throws. */
  method RecordBlock(blocks: seq<string>, blockLen: nat, pos: nat, table: map<char, Slot>)
    returns (r: Result<map<char, Slot>, char>)
    requires pos < |blocks| && forall p :: 0 <= p <= pos ==> |blocks[p]| == blockLen
    requires TableUpTo(blocks, blockLen, pos, table)
    ensures r.Ok? ==> TableUpTo(blocks, blockLen, pos + 1, r.value)
    ensures r.Err? ==> Repeated(blocks, r.error)
  {
    hide TableUpTo, RowUpTo;
    var block := blocks[pos];
    var t := table;
    RowStart(blocks, blockLen, pos, table);
    var slot := 0;
    while slot < blockLen
      invariant 0 <= slot <= blockLen
      invariant RowUpTo(blocks, blockLen, pos, slot, t)
    {
      var ch := block[slot];
      if ch in t {
        RowRepeat(blocks, blockLen, pos, slot, t);
        return Err(ch);
      }
      RowStep(blocks, blockLen, pos, slot, t);
      t := t[ch := Slot(pos, slot)];
      slot := slot + 1;
    }
    RowDone(blocks, blockLen, pos, t);
    return Ok(t);
  }

  /** The table after the first `slot` letters of block `pos`. */
  ghost predicate RowUpTo(blocks: seq<string>, blockLen: nat, pos: nat, slot: nat, t: map<char, Slot>)
    requires pos < |blocks| && forall p :: 0 <= p <= pos ==> |blocks[p]| == blockLen
  {
    && slot <= blockLen
    && (forall ch :: ch in t ==>
          (t[ch].pos < pos || (t[ch].pos == pos && t[ch].slot < slot))
          && t[ch].slot < blockLen && blocks[t[ch].pos][t[ch].slot] == ch)
    && (forall p, s :: 0 <= p < pos && 0 <= s < blockLen ==>
          blocks[p][s] in t && t[blocks[p][s]] == Slot(p, s))
    && (forall s :: 0 <= s < slot ==> blocks[pos][s] in t && t[blocks[pos][s]] == Slot(pos, s))
  }

  lemma RowStart(blocks: seq<string>, blockLen: nat, pos: nat, t: map<char, Slot>)
    requires pos < |blocks| && forall p :: 0 <= p <= pos ==> |blocks[p]| == blockLen
    requires TableUpTo(blocks, blockLen, pos, t)
    ensures RowUpTo(blocks, blockLen, pos, 0, t)
  {
  }

  lemma RowStep(blocks: seq<string>, blockLen: nat, pos: nat, slot: nat, t: map<char, Slot>)
    requires pos < |blocks| && forall p :: 0 <= p <= pos ==> |blocks[p]| == blockLen
    requires slot < blockLen && RowUpTo(blocks, blockLen, pos, slot, t) && blocks[pos][slot] !in t
    ensures RowUpTo(blocks, blockLen, pos, slot + 1, t[blocks[pos][slot] := Slot(pos, slot)])
  {
  }

  lemma RowRepeat(blocks: seq<string>, blockLen: nat, pos: nat, slot: nat, t: map<char, Slot>)
    requires pos < |blocks| && forall p :: 0 <= p <= pos ==> |blocks[p]| == blockLen
    requires slot < blockLen && RowUpTo(blocks, blockLen, pos, slot, t) && blocks[pos][slot] in t
    ensures Repeated(blocks, blocks[pos][slot])
  {
    var earlier := t[blocks[pos][slot]];
    assert blocks[earlier.pos][earlier.slot] == blocks[pos][slot];
    assert Slot(earlier.pos, earlier.slot) != Slot(pos, slot);
  }

  lemma RowDone(blocks: seq<string>, blockLen: nat, pos: nat, t: map<char, Slot>)
    requires pos < |blocks| && forall p :: 0 <= p <= pos ==> |blocks[p]| == blockLen
    requires RowUpTo(blocks, blockLen, pos, blockLen, t)
    ensures TableUpTo(blocks, blockLen, pos + 1, t)
  {
  }

  // ---------------------------------------------------------------------
  // The buffer's block and the trim
  // ---------------------------------------------------------------------

  /** `blocks.findIndex((block) => block.includes(letter))`, searching from `from`. */
  function FindBlockFrom(blocks: seq<string>, letter: string, from: nat): (r: Option<nat>)
    requires from <= |blocks|
    ensures r.Some? ==> from <= r.value < |blocks| && Includes(blocks[r.value], letter)
    ensures r.Some? ==> forall j :: from <= j < r.value ==> !Includes(blocks[j], letter)
    ensures r.None? ==> forall j :: from <= j < |blocks| ==> !Includes(blocks[j], letter)
    decreases |blocks| - from
  {
    if from == |blocks| then None
    else if Includes(blocks[from], letter) then Some(from)
    else FindBlockFrom(blocks, letter, from + 1)
  }

  /** The index of the first block that contains `letter`. */
  function FindBlock(blocks: seq<string>, letter: string): Option<nat> {
    FindBlockFrom(blocks, letter, 0)
  }

  /** In consistent scheme data, the first block holding a scheme letter is its home block. */
  lemma FindBlockIsHome(d: SchemeData, ch: char)
    requires Consistent(d) && ch in d.refPos
    ensures FindBlock(d.blocks, [ch]) == Some(d.refPos[ch].pos)
  {
    var home := d.refPos[ch];
    IncludesChar(d.blocks[home.pos], ch);
    forall j | 0 <= j < home.pos ensures !Includes(d.blocks[j], [ch]) {
      IncludesChar(d.blocks[j], ch);
      forall s | 0 <= s < |d.blocks[j]| ensures d.blocks[j][s] != ch {
        assert d.refPos[d.blocks[j][s]] == Slot(j, s);
      }
    }
    FindBlockFromReaches(d.blocks, [ch], 0, home.pos);
  }

  /** The search returns the first hit when every earlier block misses. */
  lemma {:induction false} FindBlockFromReaches(blocks: seq<string>, letter: string, from: nat, hit: nat)
    requires from <= hit < |blocks| && Includes(blocks[hit], letter)
    requires forall j :: from <= j < hit ==> !Includes(blocks[j], letter)
    ensures FindBlockFrom(blocks, letter, from) == Some(hit)
    decreases hit - from
  {
    if from < hit {
      FindBlockFromReaches(blocks, letter, from + 1, hit);
    }
  }

  /**
   * `piecesAfterBuffer` (five_cycle.js) / `_pieces_after_buffer`
   * (python/five_cycle.py): the blocks strictly after the first block that
   * contains the buffer; an error when no block contains it or none follows it.
   */
  function PiecesAfterBuffer(blocks: seq<string>, buffer: string): (r: Result<seq<string>, SchemeError>)
    ensures r == Err(BufferNotFound) <==> FindBlock(blocks, buffer).None?
    ensures r == Err(NoPiecesAfterBuffer) <==> FindBlock(blocks, buffer).Some? && FindBlock(blocks, buffer).value == |blocks| - 1
    ensures r.Ok? ==>
      var idx := FindBlock(blocks, buffer).value;
      && |r.value| == |blocks| - idx - 1 > 0
      && (forall j :: 0 <= j < |r.value| ==> r.value[j] == blocks[idx + 1 + j])
      && (forall j :: 0 <= j <= idx ==> blocks[j] !in r.value || exists k :: idx < k < |blocks| && blocks[k] == blocks[j])
  {
    match FindBlock(blocks, buffer)
    case None => Err(BufferNotFound)
    case Some(idx) =>
      var trimmed := blocks[idx + 1..];
      if |trimmed| == 0 then Err(NoPiecesAfterBuffer) else Ok(trimmed)
  }

  /** The blocks after a scheme letter's block are exactly those whose letters all sit after it. */
  lemma AfterBufferBlocks(d: SchemeData, buffer: char)
    requires Consistent(d) && buffer in d.refPos
    ensures forall p, s :: d.refPos[buffer].pos < p < |d.blocks| && 0 <= s < d.blockLen ==>
      d.blocks[p][s] != buffer && d.refPos[d.blocks[p][s]].pos > d.refPos[buffer].pos
  {
  }
}
