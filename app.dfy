/**
 * The pure helpers of the web front end (app.js): the letters a scheme text
 * offers as buffers, the buffer choice, the per-letter block table, the
 * required-pair parser, and the post-processing that puts a required pair at
 * the head of a letter chain.
 */
module App {
  import opened Wrappers
  import opened Text
  import opened Seqs
  import opened Scheme

  datatype AppError =
    | EmptyLetterScheme
    | BufferNotInScheme(buffer: string)
    | NothingAfterBuffer
    | PairLength(token: string)
    | PairRepeats(token: string)
    | LetterNotInScheme(letter: char, token: string)
    | PairBeforeBuffer(token: string)
    | PairSamePiece(token: string)
    | PairHasBuffer(token: string)

  type Pair = (char, char)

  // ---------------------------------------------------------------------------
  // The letters of a scheme text

  /** `/[A-Z]/.test(ch)`. */
  predicate IsLetter(c: char) {
    'A' <= c <= 'Z'
  }

  /** The letters A-Z of `s`, each once, in the order they first occur. */
  function FirstLetters(s: string): (r: seq<char>)
    ensures Distinct(r)
    ensures forall c :: c in r <==> c in s && IsLetter(c)
  {
    if |s| == 0 then []
    else
      var p := FirstLetters(s[..|s| - 1]);
      var c := s[|s| - 1];
      assert s == s[..|s| - 1] + [c];
      if IsLetter(c) && c !in p then
        assert forall i :: 0 <= i < |p| ==> p[i] != c;
        p + [c]
      else p
  }

  /** Reading further into the text only appends letters: the order is that of first occurrence. */
  lemma {:induction false} FirstLettersPrefix(s: string, n: nat)
    requires n <= |s|
    ensures FirstLetters(s[..n]) <= FirstLetters(s)
    decreases |s|
  {
    if n < |s| {
      var front := s[..|s| - 1];
      assert front[..n] == s[..n];
      FirstLettersPrefix(front, n);
    } else {
      assert s[..n] == s;
    }
  }

  /**
   * `uniqueLettersFromSchemeText`: the upper-cased text, scanned once with a
   * set of the letters already taken.
   */
  method UniqueLettersFromSchemeText(text: string) returns (letters: seq<char>)
    ensures letters == FirstLetters(Upper(text))
  {
    if |text| == 0 {
      return [];
    }
    var upper := Upper(text);
    var seen: set<char> := {};
    letters := [];
    for i := 0 to |upper|
      invariant letters == FirstLetters(upper[..i])
      invariant seen == Elems(letters)
    {
      var ch := upper[i];
      assert upper[..i + 1][..i] == upper[..i];
      assert upper[..i + 1][i] == ch;
      if !IsLetter(ch) {
        continue;
      }
      if ch in seen {
        continue;
      }
      seen := seen + {ch};
      letters := letters + [ch];
    }
    assert upper[..|upper|] == upper;
  }

  // ---------------------------------------------------------------------------
  // The buffer choice

  /** `letters.includes(desired)`: the candidate is one of the letters, as a one-character string. */
  predicate Offers(letters: seq<char>, desired: string) {
    |desired| == 1 && desired[0] in letters
  }

  /**
   * The choice rule of `populateBufferOptions`: the requested letter (the
   * preferred one, or the stored setting when none is given), upper-cased,
   * when the scheme offers it; otherwise the preset's buffer when the scheme
   * offers that; otherwise the first letter, or nothing for an empty scheme.
   */
  function ChooseBuffer(letters: seq<char>, preferred: string, stored: string, preset: string): (r: string)
    ensures r == "" <==> letters == []
    ensures letters != [] ==> Offers(letters, r)
    ensures Offers(letters, Upper(if preferred != "" then preferred else stored)) ==>
      r == Upper(if preferred != "" then preferred else stored)
    ensures (!Offers(letters, Upper(if preferred != "" then preferred else stored))
             && preset != "" && Offers(letters, Upper(preset))) ==> r == Upper(preset)
    ensures (!Offers(letters, Upper(if preferred != "" then preferred else stored))
             && !(preset != "" && Offers(letters, Upper(preset))) && letters != []) ==> r == [letters[0]]
  {
    var desired := Upper(if preferred != "" then preferred else stored);
    if Offers(letters, desired) then desired
    else if preset != "" && Offers(letters, Upper(preset)) then Upper(preset)
    else if letters != [] then [letters[0]]
    else ""
  }

  /**
   * Choosing again with the chosen buffer as the preferred letter keeps it,
   * whatever the stored setting and the preset are.
   */
  lemma ChooseBufferStable(letters: seq<char>, preferred: string, stored: string, preset: string,
                           stored': string, preset': string)
    requires forall i :: 0 <= i < |letters| ==> IsLetter(letters[i])
    ensures var r := ChooseBuffer(letters, preferred, stored, preset);
      ChooseBuffer(letters, r, stored', preset') == r
  {
    var r := ChooseBuffer(letters, preferred, stored, preset);
    if letters != [] {
      var k :| 0 <= k < |letters| && letters[k] == r[0];
      assert Upper(r) == r;
    }
  }

  // ---------------------------------------------------------------------------
  // The letter table

  datatype Meta = Meta(blockIdx: nat, usable: bool)

  datatype LetterMeta = LetterMeta(table: map<char, Meta>, bufferBlock: nat, trimmedStart: nat)

  /** The last block that holds `c`: a later block's entry overwrites an earlier one. */
  function LastHolding(blocks: seq<string>, c: char): (r: Option<nat>)
    ensures r.Some? ==> r.value < |blocks| && c in blocks[r.value]
    ensures r.Some? ==> forall k :: r.value < k < |blocks| ==> c !in blocks[k]
    ensures r.None? <==> forall k :: 0 <= k < |blocks| ==> c !in blocks[k]
  {
    if |blocks| == 0 then None
    else if c in blocks[|blocks| - 1] then Some(|blocks| - 1)
    else LastHolding(blocks[..|blocks| - 1], c)
  }

  /** The table's entry for `c` records the last block holding it and whether that block lies after the trim. */
  ghost predicate Entry(table: map<char, Meta>, blocks: seq<string>, trimmedStart: nat, c: char) {
    && (c in table <==> LastHolding(blocks, c).Some?)
    && (c in table ==> table[c] == Meta(LastHolding(blocks, c).value, LastHolding(blocks, c).value >= trimmedStart))
  }

  ghost predicate Describes(table: map<char, Meta>, blocks: seq<string>, trimmedStart: nat) {
    forall c :: Entry(table, blocks, trimmedStart, c)
  }

  /** A table whose usable letters are exactly those on blocks after the buffer's block. */
  predicate ValidMeta(m: LetterMeta) {
    && m.trimmedStart == m.bufferBlock + 1
    && forall c :: c in m.table ==> (m.table[c].usable <==> m.table[c].blockIdx >= m.trimmedStart)
  }

  /**
   * `buildLetterMeta`: an error for an empty scheme, a buffer no block
   * includes, or a buffer on the last block; otherwise the first block
   * including the buffer, the trim point one past it, and the table filled
   * block by block and letter by letter.
   */
  method BuildLetterMeta(blocks: seq<string>, buffer: string) returns (res: Result<LetterMeta, AppError>)
    ensures res == Err(EmptyLetterScheme) <==> blocks == []
    ensures res == Err(BufferNotInScheme(buffer)) <==> blocks != [] && FindBlock(blocks, buffer).None?
    ensures res == Err(NothingAfterBuffer) <==>
      FindBlock(blocks, buffer).Some? && FindBlock(blocks, buffer).value + 1 >= |blocks|
    ensures res.Err? ==> res.error in {EmptyLetterScheme, BufferNotInScheme(buffer), NothingAfterBuffer}
    ensures res.Ok? ==>
      && Some(res.value.bufferBlock) == FindBlock(blocks, buffer)
      && res.value.trimmedStart == res.value.bufferBlock + 1 < |blocks|
      && Describes(res.value.table, blocks, res.value.trimmedStart)
      && ValidMeta(res.value)
  {
    if |blocks| == 0 {
      return Err(EmptyLetterScheme);
    }
    var found := FindBlock(blocks, buffer);
    if found.None? {
      return Err(BufferNotInScheme(buffer));
    }
    var bufferBlock := found.value;
    var trimmedStart := bufferBlock + 1;
    if trimmedStart >= |blocks| {
      return Err(NothingAfterBuffer);
    }
    var table: map<char, Meta> := map[];
    for idx := 0 to |blocks|
      invariant Describes(table, blocks[..idx], trimmedStart)
    {
      var block := blocks[idx];
      for j := 0 to |block|
        invariant forall c :: c in block[..j] ==> c in table && table[c] == Meta(idx, idx >= trimmedStart)
        invariant forall c :: c !in block[..j] ==> Entry(table, blocks[..idx], trimmedStart, c)
      {
        assert block[..j + 1] == block[..j] + [block[j]];
        table := table[block[j] := Meta(idx, idx >= trimmedStart)];
      }
      assert block[..|block|] == block;
      var upto := blocks[..idx + 1];
      assert upto[..idx] == blocks[..idx];
      assert upto[idx] == block;
      forall c ensures Entry(table, upto, trimmedStart, c) {
        if c !in block {
          assert Entry(table, blocks[..idx], trimmedStart, c);
        }
      }
    }
    assert blocks[..|blocks|] == blocks;
    forall c | c in table ensures (table[c].usable <==> table[c].blockIdx >= trimmedStart) {
      assert Entry(table, blocks, trimmedStart, c);
    }
    res := Ok(LetterMeta(table, bufferBlock, trimmedStart));
  }

  // ---------------------------------------------------------------------------
  // Required pairs

  /** What `parseRequiredPairs` accepts of one token, the buffer-block test aside. */
  predicate PairOk(m: LetterMeta, token: string) {
    && |token| == 2
    && token[0] != token[1]
    && token[0] in m.table && token[1] in m.table
    && m.table[token[0]].usable && m.table[token[1]].usable
    && m.table[token[0]].blockIdx != m.table[token[1]].blockIdx
  }

  /**
   * The checks `parseRequiredPairs` makes of one token, in its order: the
   * length, a repeated letter, each letter's presence, usability, the same
   * piece, and the buffer's piece. On a valid table the last never fires.
   */
  function TokenError(m: LetterMeta, token: string): (r: Option<AppError>)
    ensures r.None? ==> PairOk(m, token)
    ensures ValidMeta(m) ==> (r.None? <==> PairOk(m, token))
    ensures ValidMeta(m) ==> r != Some(PairHasBuffer(token))
  {
    if |token| != 2 then Some(PairLength(token))
    else if token[0] == token[1] then Some(PairRepeats(token))
    else if token[0] !in m.table then Some(LetterNotInScheme(token[0], token))
    else if token[1] !in m.table then Some(LetterNotInScheme(token[1], token))
    else if !m.table[token[0]].usable || !m.table[token[1]].usable then Some(PairBeforeBuffer(token))
    else if m.table[token[0]].blockIdx == m.table[token[1]].blockIdx then Some(PairSamePiece(token))
    else if m.table[token[0]].blockIdx == m.bufferBlock || m.table[token[1]].blockIdx == m.bufferBlock then
      Some(PairHasBuffer(token))
    else None
  }

  /** The pairs the accepted tokens contribute, in token order, each followed by its inverse when asked for. */
  function AllPairs(tokens: seq<string>, inverses: bool): seq<Pair>
    requires forall k :: 0 <= k < |tokens| ==> |tokens[k]| == 2
  {
    if |tokens| == 0 then []
    else
      var t := tokens[|tokens| - 1];
      AllPairs(tokens[..|tokens| - 1], inverses)
      + (if inverses then [(t[0], t[1]), (t[1], t[0])] else [(t[0], t[1])])
  }

  /** Token `k` gives the entry at `k` (or `2k`, with its inverse at `2k + 1`). */
  lemma {:induction false} AllPairsLayout(tokens: seq<string>, inverses: bool)
    requires forall k :: 0 <= k < |tokens| ==> |tokens[k]| == 2
    ensures |AllPairs(tokens, inverses)| == if inverses then 2 * |tokens| else |tokens|
    ensures forall k :: 0 <= k < |tokens| ==>
      AllPairs(tokens, inverses)[if inverses then 2 * k else k] == (tokens[k][0], tokens[k][1])
    ensures inverses ==> forall k :: 0 <= k < |tokens| ==>
      AllPairs(tokens, inverses)[2 * k + 1] == (tokens[k][1], tokens[k][0])
  {
    if |tokens| > 0 {
      var front := tokens[..|tokens| - 1];
      AllPairsLayout(front, inverses);
      assert forall k :: 0 <= k < |front| ==> front[k] == tokens[k];
    }
  }

  /** The tokens of the pair field: none for a blank field, else the runs of non-white-space, upper-cased. */
  function PairTokens(input: string): seq<string> {
    var raw := Upper(Trim(input, IsJsSpace));
    if raw == "" then [] else Tokens(raw)
  }

  /** The scheme has a block including the buffer and a block after it. */
  predicate SchemeUsable(blocks: seq<string>, buffer: string) {
    FindBlock(blocks, buffer).Some? && FindBlock(blocks, buffer).value + 1 < |blocks|
  }

  /**
   * `parseRequiredPairs`, given the text of the pair field: no pairs for a
   * blank field; otherwise the letter table of the scheme (whose errors
   * propagate), then every token checked in order, the first failing one
   * giving the error. `m` is the table the checks consult.
   */
  method ParseRequiredPairs(input: string, schemeText: string, buffer: string, includeInverses: bool)
    returns (res: Result<seq<Pair>, AppError>, ghost m: LetterMeta)
    ensures PairTokens(input) == [] ==> res == Ok([])
    ensures var tokens := PairTokens(input); var blocks := NormalizeSchemeBlocks(schemeText);
      tokens != [] && !SchemeUsable(blocks, buffer) ==>
        res.Err? && res.error in {EmptyLetterScheme, BufferNotInScheme(buffer), NothingAfterBuffer}
    ensures var tokens := PairTokens(input); var blocks := NormalizeSchemeBlocks(schemeText);
      tokens != [] && SchemeUsable(blocks, buffer) ==>
        && ValidMeta(m) && Some(m.bufferBlock) == FindBlock(blocks, buffer)
        && Describes(m.table, blocks, m.trimmedStart)
        && (res.Ok? <==> forall k :: 0 <= k < |tokens| ==> PairOk(m, tokens[k]))
        && (res.Ok? ==> res.value == AllPairs(tokens, includeInverses))
        && (res.Err? ==> exists k :: 0 <= k < |tokens| && TokenError(m, tokens[k]) == Some(res.error)
                                   && forall j :: 0 <= j < k ==> PairOk(m, tokens[j]))
    ensures res.Err? ==> !res.error.PairHasBuffer?
  {
    hide NormalizeSchemeBlocks, Tokens, Upper, Trim, PairOk, TokenError, AllPairs, Describes, FindBlock;
    m := LetterMeta(map[], 0, 0);
    var raw := Upper(Trim(input, IsJsSpace));
    if raw == "" {
      return Ok([]), m;
    }
    var tokens := Tokens(raw);
    if |tokens| == 0 {
      return Ok([]), m;
    }
    var blocks := NormalizeSchemeBlocks(schemeText);
    var built := BuildLetterMeta(blocks, buffer);
    if built.Err? {
      return Err(built.error), m;
    }
    m := built.value;
    res := CheckTokens(built.value, tokens, includeInverses);
  }

  /** The loop of `parseRequiredPairs`: every token checked in order, the accepted ones' pairs pushed. */
  method CheckTokens(m: LetterMeta, tokens: seq<string>, includeInverses: bool) returns (res: Result<seq<Pair>, AppError>)
    requires ValidMeta(m)
    ensures res.Ok? <==> forall k :: 0 <= k < |tokens| ==> PairOk(m, tokens[k])
    ensures res.Ok? ==> res.value == AllPairs(tokens, includeInverses)
    ensures res.Err? ==> exists k :: 0 <= k < |tokens| && TokenError(m, tokens[k]) == Some(res.error)
                                   && forall j :: 0 <= j < k ==> PairOk(m, tokens[j])
    ensures res.Err? ==> !res.error.PairHasBuffer?
  {
    var pairs: seq<Pair> := [];
    for k := 0 to |tokens|
      invariant forall j :: 0 <= j < k ==> PairOk(m, tokens[j])
      invariant pairs == AllPairs(tokens[..k], includeInverses)
    {
      var token := tokens[k];
      var e := TokenError(m, token);
      if e.Some? {
        return Err(e.value);
      }
      assert tokens[..k + 1][..k] == tokens[..k];
      assert tokens[..k + 1][k] == token;
      pairs := pairs + [(token[0], token[1])];
      if includeInverses {
        pairs := pairs + [(token[1], token[0])];
      }
    }
    assert tokens[..|tokens|] == tokens;
    res := Ok(pairs);
  }

  /** An accepted pair names two letters on different blocks after the buffer's block. */
  lemma AcceptedPairPlacement(blocks: seq<string>, m: LetterMeta, token: string)
    requires Describes(m.table, blocks, m.trimmedStart) && m.trimmedStart == m.bufferBlock + 1
    requires PairOk(m, token)
    ensures LastHolding(blocks, token[0]).Some? && LastHolding(blocks, token[1]).Some?
    ensures LastHolding(blocks, token[0]).value > m.bufferBlock
    ensures LastHolding(blocks, token[1]).value > m.bufferBlock
    ensures LastHolding(blocks, token[0]) != LastHolding(blocks, token[1])
  {
    assert Entry(m.table, blocks, m.trimmedStart, token[0]);
    assert Entry(m.table, blocks, m.trimmedStart, token[1]);
  }

  // ---------------------------------------------------------------------------
  // Putting the required pair at the head of a chain

  /** `letters[index] === pair[0] && letters[(index + 1) % letters.length] === pair[1]`. */
  predicate AdjacentAt(letters: seq<char>, i: nat, pair: Pair)
    requires i < |letters|
  {
    letters[i] == pair.0 && letters[(i + 1) % |letters|] == pair.1
  }

  /** `findIndex` of a cyclic occurrence of the pair, from index `from` on. */
  function FindAdjacent(letters: seq<char>, pair: Pair, from: nat): (r: Option<nat>)
    requires from <= |letters|
    ensures r.Some? ==> from <= r.value < |letters| && AdjacentAt(letters, r.value, pair)
    ensures r.Some? ==> forall j :: from <= j < r.value ==> !AdjacentAt(letters, j, pair)
    ensures r.None? <==> forall j :: from <= j < |letters| ==> !AdjacentAt(letters, j, pair)
    decreases |letters| - from
  {
    if from == |letters| then None
    else if AdjacentAt(letters, from, pair) then Some(from)
    else FindAdjacent(letters, pair, from + 1)
  }

  /** The first `filter`: the entries from `from` on that do not start a cyclic occurrence of the pair. */
  function DropAdjacent(letters: seq<char>, pair: Pair, from: nat): seq<char>
    requires from <= |letters|
    decreases |letters| - from
  {
    if from == |letters| then []
    else if AdjacentAt(letters, from, pair) then DropAdjacent(letters, pair, from + 1)
    else [letters[from]] + DropAdjacent(letters, pair, from + 1)
  }

  /** The second `filter`: the letters other than the pair's two. */
  function DropLetters(s: seq<char>, pair: Pair): (r: seq<char>)
    ensures |r| <= |s|
    ensures forall c :: c in r <==> c in s && c != pair.0 && c != pair.1
  {
    if |s| == 0 then []
    else
      var rest := DropLetters(s[1..], pair);
      assert s == [s[0]] + s[1..];
      if s[0] == pair.0 || s[0] == pair.1 then rest else [s[0]] + rest
  }

  /**
   * `ensureChainPair`: the letters unchanged when there is no pair or fewer
   * than two letters; the rotation starting at the first cyclic occurrence
   * of the pair when there is one; otherwise the pair followed by the other
   * letters, cut to the original length.
   */
  function EnsureChainPair(letters: seq<char>, pair: Option<Pair>): (r: seq<char>)
    ensures pair.None? || |letters| < 2 ==> r == letters
    ensures pair.Some? && |letters| >= 2 ==> 2 <= |r| <= |letters| && r[0] == pair.value.0 && r[1] == pair.value.1
  {
    if pair.None? || |letters| < 2 then letters
    else
      var p := pair.value;
      var idx := FindAdjacent(letters, p, 0);
      if idx.Some? then
        RotateAtPair(letters, idx.value, p);
        Rotate(letters, idx.value)
      else
        var adjusted := [p.0, p.1] + DropLetters(DropAdjacent(letters, p, 0), p);
        if |adjusted| <= |letters| then adjusted else adjusted[..|letters|]
  }

  /** The rotation starting at a cyclic occurrence of the pair begins with the pair. */
  lemma RotateAtPair(letters: seq<char>, i: nat, pair: Pair)
    requires |letters| >= 2 && i < |letters| && AdjacentAt(letters, i, pair)
    ensures Rotate(letters, i)[0] == pair.0 && Rotate(letters, i)[1] == pair.1
  {
    var n := |letters|;
    if i + 1 < n {
      assert (i + 1) % n == i + 1;
      assert Rotate(letters, i)[1] == letters[i + 1];
    } else {
      assert (i + 1) % n == 0;
      assert Rotate(letters, i)[1] == letters[0];
    }
  }

  /** With no cyclic occurrence at or after `from`, the first filter keeps every entry. */
  lemma {:induction false} DropAdjacentNone(letters: seq<char>, pair: Pair, from: nat)
    requires from <= |letters|
    requires forall j :: from <= j < |letters| ==> !AdjacentAt(letters, j, pair)
    ensures DropAdjacent(letters, pair, from) == letters[from..]
    decreases |letters| - from
  {
    if from < |letters| {
      DropAdjacentNone(letters, pair, from + 1);
      assert letters[from..] == [letters[from]] + letters[from + 1..];
    }
  }

  /** A chain with a cyclic occurrence of the pair is rotated to start there, keeping every letter. */
  lemma EnsureRotates(letters: seq<char>, pair: Pair, i: nat)
    requires |letters| >= 2 && i < |letters| && AdjacentAt(letters, i, pair)
    ensures var r := EnsureChainPair(letters, Some(pair));
      |r| == |letters| && IsRotation(r, letters)
    ensures (forall j :: 0 <= j < i ==> !AdjacentAt(letters, j, pair)) ==>
      EnsureChainPair(letters, Some(pair)) == Rotate(letters, i)
  {
    var idx := FindAdjacent(letters, pair, 0);
    assert idx.Some?;
  }

  /**
   * Without one, the result is the pair followed by the letters other than
   * the pair's own, in their order, cut to the original length: the first
   * filter removes nothing.
   */
  lemma EnsureSplices(letters: seq<char>, pair: Pair)
    requires |letters| >= 2
    requires forall j :: 0 <= j < |letters| ==> !AdjacentAt(letters, j, pair)
    ensures var adjusted := [pair.0, pair.1] + DropLetters(letters, pair);
      EnsureChainPair(letters, Some(pair)) == if |adjusted| <= |letters| then adjusted else adjusted[..|letters|]
  {
    DropAdjacentNone(letters, pair, 0);
    assert letters[0..] == letters;
  }

  /** Applying the post-processing twice gives the same chain as once. */
  lemma EnsureIdempotent(letters: seq<char>, pair: Option<Pair>)
    ensures EnsureChainPair(EnsureChainPair(letters, pair), pair) == EnsureChainPair(letters, pair)
  {
    var r := EnsureChainPair(letters, pair);
    if pair.Some? && |letters| >= 2 {
      assert AdjacentAt(r, 0, pair.value);
      assert FindAdjacent(r, pair.value, 0) == Some(0);
      assert Rotate(r, 0) == r;
    }
  }
}
