/**
 * The five-commutator drill of five_cycle.js and python/five_cycle.py.
 * After the options are validated, each attempt picks four pieces I, J, K, L
 * after the buffer's piece and builds three commutators through the buffer on
 * (I, J), (K, L) and (J, K) or (J, L). It keeps them when, applied to a solved
 * puzzle, they leave the buffer in a five-cycle. Two more commutators read
 * off that cycle's trace then close it.
 */
module FiveCycle {
  import opened Wrappers
  import opened Text
  import opened Seqs
  import opened Oracle
  import opened Scheme
  import opened Puzzle
  import opened Composition

  /** A forced pair as a caller passes it: absent, one string, or a list of two items. */
  datatype PairInput = NoPair | PairText(text: string) | PairItems(items: seq<string>)

  /** The conditions under which the generators throw. */
  datatype FcError =
    | BufferRequired
    | BadScheme(cause: SchemeError)
    | BufferNotInScheme
    | PairWrongLength
    | PairItemNotLetter
    | ForcedLettersEqual
    | ForcedLetterMissing(letter: string)
    | ForcedLetterNotAfterBuffer(target: char)
    | ForcedSameBlock
    | TooFewPieces
    | NoUsableStickers(block: string)
    | Failed
    | UndefinedName

  /** Two target letters: one commutator through the buffer. */
  type Comm = (char, char)

  /** The result: the chosen pieces, the commutators and the trace of the cycle they close. */
  datatype Drill = Drill(pieces: seq<string>, comms: seq<Comm>, trace: seq<char>)

  /** A successful attempt: pieces I, J, K, L, where the forced pair went, the three commutators and the trace. */
  datatype Attempt = Attempt(pieces: seq<string>, forcedSecond: bool, initial: seq<Comm>, trace: seq<char>)

  /** What validation hands the attempt loop: the scheme, the buffer, the forced pair and the pieces after the buffer. */
  datatype Setup = Setup(d: SchemeData, buffer: char, forced: Option<Comm>, available: seq<string>)

  // ---------------------------------------------------------------------------
  // Letters and pieces

  /** `letterToRefPos[s]` is set: `s` is one letter of the scheme. */
  predicate SchemeLetter(d: SchemeData, s: string) {
    |s| == 1 && s[0] in d.refPos
  }

  /** `ch` is a scheme letter on a block after the buffer's block. */
  predicate AfterBuffer(d: SchemeData, buffer: char, ch: char) {
    buffer in d.refPos && ch in d.refPos && d.refPos[ch].pos > d.refPos[buffer].pos
  }

  /** `block` has a sticker other than the buffer. */
  predicate Usable(block: string, buffer: char) {
    exists i :: 0 <= i < |block| && block[i] != buffer
  }

  /** The pieces after the buffer's piece, everything validation promises. */
  ghost predicate ValidSetup(s: Setup) {
    && Consistent(s.d)
    && s.buffer in s.d.refPos
    && s.available == s.d.blocks[s.d.refPos[s.buffer].pos + 1..]
    && |s.available| >= 4
    && (s.forced.Some? ==>
          AfterBuffer(s.d, s.buffer, s.forced.value.0) && AfterBuffer(s.d, s.buffer, s.forced.value.1))
  }

  /** Every letter of a piece after the buffer's piece sits after the buffer, so the piece has a usable sticker. */
  lemma LaterPiece(s: Setup, piece: string)
    requires ValidSetup(s) && piece in s.available
    ensures Usable(piece, s.buffer)
    ensures forall ch :: ch in piece ==> AfterBuffer(s.d, s.buffer, ch)
  {
    var b := s.d.refPos[s.buffer].pos;
    var j :| 0 <= j < |s.available| && s.available[j] == piece;
    var p := b + 1 + j;
    assert piece == s.d.blocks[p];
    forall ch | ch in piece ensures AfterBuffer(s.d, s.buffer, ch) {
      var t :| 0 <= t < |piece| && piece[t] == ch;
      assert s.d.refPos[s.d.blocks[p][t]] == Slot(p, t);
    }
    assert piece[0] in piece;
  }

  /** The blocks of a consistent scheme are pairwise different. */
  lemma BlocksDistinct(d: SchemeData)
    requires Consistent(d)
    ensures Distinct(d.blocks)
  {
    forall i, j | 0 <= i < j < |d.blocks| ensures d.blocks[i] != d.blocks[j] {
      assert d.refPos[d.blocks[i][0]] == Slot(i, 0);
      assert d.refPos[d.blocks[j][0]] == Slot(j, 0);
    }
  }

  /** The pieces after the buffer are pairwise different. */
  lemma AvailableDistinct(s: Setup)
    requires ValidSetup(s)
    ensures Distinct(s.available)
  {
    BlocksDistinct(s.d);
    DistinctSlice(s.d.blocks, s.d.refPos[s.buffer].pos + 1, |s.d.blocks|);
  }

  // ---------------------------------------------------------------------------
  // Random stickers

  /** `[...block].filter((ch) => ch !== bufferLetter)`: the stickers of `block` other than the buffer. */
  function Without(block: string, buffer: char): (r: string)
    ensures forall ch :: ch in r <==> ch in block && ch != buffer
  {
    if |block| == 0 then ""
    else
      var rest := Without(block[1..], buffer);
      assert forall ch :: ch in block <==> ch == block[0] || ch in block[1..];
      if block[0] == buffer then rest else [block[0]] + rest
  }

  /** `randomLetter` / `_random_letter`: one sticker of `block` other than the buffer. */
  function RandomLetter(block: string, buffer: char, r: Rng): (res: Result<(char, Rng), FcError>)
    ensures res.Ok? <==> Usable(block, buffer)
    ensures res.Err? ==> res.error == NoUsableStickers(block)
    ensures res.Ok? ==> res.value.0 in block && res.value.0 != buffer
  {
    var letters := Without(block, buffer);
    if |letters| == 0 then
      assert forall i :: 0 <= i < |block| ==> block[i] in block;
      Err(NoUsableStickers(block))
    else
      assert letters[0] in letters;
      Ok(Choice(letters, r))
  }

  /** Every sticker other than the buffer is a possible draw. */
  lemma RandomLetterReaches(block: string, buffer: char, ch: char)
    requires ch in block && ch != buffer
    ensures exists k: nat :: RandomLetter(block, buffer, Rng([k])) == Ok((ch, Rng([])))
  {
    var letters := Without(block, buffer);
    var k :| 0 <= k < |letters| && letters[k] == ch;
    NextReaches(k, |letters|, []);
    assert RandomLetter(block, buffer, Rng([k])) == Ok((ch, Rng([])));
  }

  /** `randomPair` / `_random_pair`: a sticker of `a`, then a sticker of `b`. */
  function RandomPair(a: string, b: string, buffer: char, r: Rng): (res: Result<(Comm, Rng), FcError>)
    ensures res.Ok? <==> Usable(a, buffer) && Usable(b, buffer)
    ensures res.Ok? ==> CommOn(res.value.0, a, b) && res.value.0.0 != buffer && res.value.0.1 != buffer
  {
    match RandomLetter(a, buffer, r)
    case Err(e) => Err(e)
    case Ok((x, r1)) =>
      match RandomLetter(b, buffer, r1)
      case Err(e) => Err(e)
      case Ok((y, r2)) => Ok(((x, y), r2))
  }

  /** The commutator's first target lies on piece `a`, its second on piece `b`. */
  predicate CommOn(c: Comm, a: string, b: string) {
    c.0 in a && c.1 in b
  }

  // ---------------------------------------------------------------------------
  // Forced pairs

  /**
   * `normalizeForcedPair` (five_cycle.js): an absent or empty pair is none; a
   * list must have two items, each trimmed and upper-cased; a string is
   * trimmed and upper-cased and must then have two characters.
   */
  function NormalizePairJs(p: PairInput): (r: Result<Option<(string, string)>, FcError>)
    ensures r == Ok(None) <==> p.NoPair? || p == PairText("")
    ensures r.Err? <==>
      (p.PairText? && p.text != "" && |Normalized(p.text, IsJsSpace)| != 2) || (p.PairItems? && |p.items| != 2)
    ensures r.Err? ==> r.error == PairWrongLength
    ensures r.Ok? && r.value.Some? && p.PairText? ==>
      |r.value.value.0| == 1 && |r.value.value.1| == 1
      && r.value.value.0 + r.value.value.1 == Normalized(p.text, IsJsSpace)
    ensures r.Ok? && r.value.Some? && p.PairItems? ==>
      |p.items| == 2 && r.value.value == (Normalized(p.items[0], IsJsSpace), Normalized(p.items[1], IsJsSpace))
  {
    match p
    case NoPair => Ok(None)
    case PairText(t) => PairTextJs(t)
    case PairItems(xs) => PairItemsJs(xs)
  }

  /** The string form of a JavaScript forced pair. */
  function PairTextJs(t: string): (r: Result<Option<(string, string)>, FcError>)
    ensures r == Ok(None) <==> t == ""
    ensures r.Err? <==> t != "" && |Normalized(t, IsJsSpace)| != 2
    ensures r.Err? ==> r.error == PairWrongLength
    ensures r.Ok? && r.value.Some? ==>
      |r.value.value.0| == 1 && |r.value.value.1| == 1 && r.value.value.0 + r.value.value.1 == Normalized(t, IsJsSpace)
  {
    if t == "" then Ok(None)
    else
      var s := Normalized(t, IsJsSpace);
      if |s| != 2 then Err(PairWrongLength)
      else
        assert [s[0]] + [s[1]] == s;
        Ok(Some(([s[0]], [s[1]])))
  }

  /** The list form of a JavaScript forced pair. */
  function PairItemsJs(xs: seq<string>): (r: Result<Option<(string, string)>, FcError>)
    ensures r == Err(PairWrongLength) <==> |xs| != 2
    ensures r.Ok? ==> |xs| == 2 && r.value == Some((Normalized(xs[0], IsJsSpace), Normalized(xs[1], IsJsSpace)))
  {
    if |xs| != 2 then Err(PairWrongLength)
    else Ok(Some((Normalized(xs[0], IsJsSpace), Normalized(xs[1], IsJsSpace))))
  }

  /**
   * `_normalize_forced_pair` (python/five_cycle.py): a string is stripped and
   * upper-cased and must have two characters; a list must have two items,
   * each of which, stripped and upper-cased, is one character.
   */
  function NormalizePairPy(p: PairInput): (r: Result<Option<Comm>, FcError>)
    ensures r == Ok(None) <==> p.NoPair?
    ensures r == Err(PairWrongLength) <==>
      (p.PairText? && |Normalized(p.text, IsPySpace)| != 2) || (p.PairItems? && |p.items| != 2)
    ensures r == Err(PairItemNotLetter) <==>
      p.PairItems? && |p.items| == 2 && (|Normalized(p.items[0], IsPySpace)| != 1 || |Normalized(p.items[1], IsPySpace)| != 1)
    ensures r.Ok? && r.value.Some? && p.PairText? ==>
      [r.value.value.0, r.value.value.1] == Normalized(p.text, IsPySpace)
    ensures r.Ok? && r.value.Some? && p.PairItems? ==>
      [r.value.value.0] == Normalized(p.items[0], IsPySpace) && [r.value.value.1] == Normalized(p.items[1], IsPySpace)
    ensures r.Err? ==> r.error in {PairWrongLength, PairItemNotLetter}
  {
    match p
    case NoPair => Ok(None)
    case PairText(t) => PairTextPy(t)
    case PairItems(xs) => PairItemsPy(xs)
  }

  /** The string form of a Python forced pair. */
  function PairTextPy(t: string): (r: Result<Option<Comm>, FcError>)
    ensures r.Err? <==> |Normalized(t, IsPySpace)| != 2
    ensures r.Err? ==> r.error == PairWrongLength
    ensures r.Ok? ==> r.value.Some? && [r.value.value.0, r.value.value.1] == Normalized(t, IsPySpace)
  {
    var s := Normalized(t, IsPySpace);
    if |s| != 2 then Err(PairWrongLength) else Ok(Some((s[0], s[1])))
  }

  /** The list form of a Python forced pair. */
  function PairItemsPy(xs: seq<string>): (r: Result<Option<Comm>, FcError>)
    ensures r == Err(PairWrongLength) <==> |xs| != 2
    ensures r == Err(PairItemNotLetter) <==>
      |xs| == 2 && (|Normalized(xs[0], IsPySpace)| != 1 || |Normalized(xs[1], IsPySpace)| != 1)
    ensures r.Ok? ==>
      |xs| == 2 && r.value.Some?
      && [r.value.value.0] == Normalized(xs[0], IsPySpace) && [r.value.value.1] == Normalized(xs[1], IsPySpace)
  {
    if |xs| != 2 then Err(PairWrongLength)
    else
      var first := Normalized(xs[0], IsPySpace);
      var second := Normalized(xs[1], IsPySpace);
      if |first| != 1 || |second| != 1 then Err(PairItemNotLetter) else Ok(Some((first[0], second[0])))
  }

  /** Upper-casing a trimmed string leaves no white space at its ends. */
  lemma CleanEnds(t: string, ws: char -> bool)
    requires ws == IsJsSpace || ws == IsPySpace
    ensures var s := Normalized(t, ws); |s| > 0 ==> !ws(s[0]) && !ws(s[|s| - 1])
  {
    var u := Trim(t, ws);
    var s := Normalized(t, ws);
    assert s == Upper(u);
    if |u| > 0 {
      var first, last := u[0], u[|u| - 1];
      assert !ws(first) && !ws(last);
      assert s[0] == UpperChar(first) && s[|s| - 1] == UpperChar(last);
      UpperKeepsInk(first);
      UpperKeepsInk(last);
      if ws == IsJsSpace {
        assert !IsJsSpace(UpperChar(first)) && !IsJsSpace(UpperChar(last));
      } else {
        assert !IsPySpace(UpperChar(first)) && !IsPySpace(UpperChar(last));
      }
    }
  }

  /** A normalized JavaScript pair, written back as one string, normalizes to itself. */
  lemma NormalizePairJsIdempotent(t: string)
    requires NormalizePairJs(PairText(t)).Ok? && NormalizePairJs(PairText(t)).value.Some?
    ensures var v := NormalizePairJs(PairText(t)).value.value;
      NormalizePairJs(PairText(v.0 + v.1)) == NormalizePairJs(PairText(t))
  {
    var s := Normalized(t, IsJsSpace);
    CleanEnds(t, IsJsSpace);
    TrimClean(s, IsJsSpace);
    UpperIdempotent(Trim(t, IsJsSpace));
  }

  /** A normalized Python pair normalizes to itself, and its string and list forms agree. */
  lemma NormalizePairPyIdempotent(t: string)
    requires NormalizePairPy(PairText(t)).Ok? && NormalizePairPy(PairText(t)).value.Some?
    ensures var v := NormalizePairPy(PairText(t)).value.value;
      && NormalizePairPy(PairText([v.0, v.1])) == NormalizePairPy(PairText(t))
      && NormalizePairPy(PairItems([[v.0], [v.1]])) == NormalizePairPy(PairText(t))
  {
    var s := Normalized(t, IsPySpace);
    CleanEnds(t, IsPySpace);
    TrimClean(s, IsPySpace);
    UpperIdempotent(Trim(t, IsPySpace));
    TrimClean([s[0]], IsPySpace);
    TrimClean([s[1]], IsPySpace);
    UpperIdempotent([s[0]]);
    UpperIdempotent([s[1]]);
    assert Upper([s[0]]) == [s[0]] && Upper([s[1]]) == [s[1]];
  }

  /** What both implementations demand of a forced pair: both letters after the buffer's block. */
  predicate PairAfterBuffer(d: SchemeData, buffer: char, c: Comm) {
    AfterBuffer(d, buffer, c.0) && AfterBuffer(d, buffer, c.1)
  }

  /** What the Python implementation demands in addition: two letters on two different blocks. */
  predicate PairOnTwoBlocks(d: SchemeData, c: Comm) {
    c.0 != c.1 && c.0 in d.refPos && c.1 in d.refPos && d.refPos[c.0].pos != d.refPos[c.1].pos
  }

  /**
   * The checks of five_cycle.js on each forced letter in turn: it must be a
   * scheme letter, and its block must come after the buffer's block `bufIdx`.
   */
  function CheckForcedJs(d: SchemeData, bufIdx: nat, pair: (string, string)): (r: Result<Comm, FcError>)
    ensures r.Ok? <==>
      SchemeLetter(d, pair.0) && SchemeLetter(d, pair.1) && d.refPos[pair.0[0]].pos > bufIdx && d.refPos[pair.1[0]].pos > bufIdx
    ensures r.Ok? ==> [r.value.0] == pair.0 && [r.value.1] == pair.1
    ensures !SchemeLetter(d, pair.0) ==> r == Err(ForcedLetterMissing(pair.0))
    ensures SchemeLetter(d, pair.0) && d.refPos[pair.0[0]].pos <= bufIdx ==>
      r == Err(ForcedLetterNotAfterBuffer(pair.0[0]))
    ensures r.Err? ==>
      r.error in {ForcedLetterMissing(pair.0), ForcedLetterMissing(pair.1)}
      || (r.error.ForcedLetterNotAfterBuffer? && [r.error.target] in {pair.0, pair.1})
  {
    if !SchemeLetter(d, pair.0) then Err(ForcedLetterMissing(pair.0))
    else if d.refPos[pair.0[0]].pos <= bufIdx then
      assert [pair.0[0]] == pair.0;
      Err(ForcedLetterNotAfterBuffer(pair.0[0]))
    else if !SchemeLetter(d, pair.1) then Err(ForcedLetterMissing(pair.1))
    else if d.refPos[pair.1[0]].pos <= bufIdx then
      assert [pair.1[0]] == pair.1;
      Err(ForcedLetterNotAfterBuffer(pair.1[0]))
    else Ok((pair.0[0], pair.1[0]))
  }

  /**
   * `_validate_forced_pair` (python/five_cycle.py): after normalizing, reject
   * equal letters, letters outside the scheme, a missing buffer, letters not
   * after the buffer's block and two letters on the same block, in that order.
   */
  function ValidateForcedPairPy(d: SchemeData, buffer: char, p: PairInput): (r: Result<Option<Comm>, FcError>)
    requires Consistent(d)
    ensures r.Ok? <==>
      NormalizePairPy(p).Ok? &&
      (NormalizePairPy(p).value.Some? ==>
         PairAfterBuffer(d, buffer, NormalizePairPy(p).value.value) && PairOnTwoBlocks(d, NormalizePairPy(p).value.value))
    ensures r.Ok? ==> r.value == NormalizePairPy(p).value
    ensures NormalizePairPy(p).Err? ==> r == NormalizePairPy(p)
    ensures NormalizePairPy(p).Ok? && NormalizePairPy(p).value.Some? && NormalizePairPy(p).value.value.0 == NormalizePairPy(p).value.value.1
      ==> r == Err(ForcedLettersEqual)
    ensures r.Err? ==> !r.error.BufferRequired? && !r.error.Failed?
  {
    match NormalizePairPy(p)
    case Err(e) => Err(e)
    case Ok(None) => Ok(None)
    case Ok(Some((x, y))) =>
      if x == y then Err(ForcedLettersEqual)
      else if x !in d.refPos then Err(ForcedLetterMissing([x]))
      else if y !in d.refPos then Err(ForcedLetterMissing([y]))
      else if buffer !in d.refPos then Err(BufferNotInScheme)
      else if d.refPos[x].pos <= d.refPos[buffer].pos then Err(ForcedLetterNotAfterBuffer(x))
      else if d.refPos[y].pos <= d.refPos[buffer].pos then Err(ForcedLetterNotAfterBuffer(y))
      else if d.refPos[x].pos == d.refPos[y].pos then Err(ForcedSameBlock)
      else Ok(Some((x, y)))
  }

  // ---------------------------------------------------------------------------
  // Validation of the options

  /**
   * `piecesAfterBuffer` followed by the four-piece check, once the buffer and
   * the forced pair are known good.
   */
  function Trimmed(d: SchemeData, buffer: char, forced: Option<Comm>): (r: Result<Setup, FcError>)
    requires Consistent(d) && buffer in d.refPos
    requires forced.Some? ==> PairAfterBuffer(d, buffer, forced.value)
    ensures r.Ok? <==> d.refPos[buffer].pos + 4 < |d.blocks|
    ensures r == Err(BadScheme(NoPiecesAfterBuffer)) <==> d.refPos[buffer].pos == |d.blocks| - 1
    ensures r.Err? ==> r.error in {BadScheme(NoPiecesAfterBuffer), TooFewPieces}
    ensures r.Ok? ==> ValidSetup(r.value) && r.value.d == d && r.value.buffer == buffer && r.value.forced == forced
  {
    FindBlockIsHome(d, buffer);
    match PiecesAfterBuffer(d.blocks, [buffer])
    case Err(e) => Err(BadScheme(e))
    case Ok(available) =>
      assert available == d.blocks[d.refPos[buffer].pos + 1..];
      if |available| < 4 then Err(TooFewPieces) else Ok(Setup(d, buffer, forced, available))
  }

  /** The checks of `basicFiveCycle` (five_cycle.js) after the scheme is built, in order. */
  function SetupJs(d: SchemeData, buffer: string, p: PairInput): (r: Result<Setup, FcError>)
    requires Consistent(d)
    ensures !SchemeLetter(d, buffer) ==> r == Err(BufferNotInScheme)
    ensures SchemeLetter(d, buffer) && NormalizePairJs(p).Err? ==> r == Err(NormalizePairJs(p).error)
    ensures r.Ok? <==>
      && SchemeLetter(d, buffer)
      && NormalizePairJs(p).Ok?
      && (NormalizePairJs(p).value.Some? ==> CheckForcedJs(d, d.refPos[buffer[0]].pos, NormalizePairJs(p).value.value).Ok?)
      && d.refPos[buffer[0]].pos + 4 < |d.blocks|
    ensures r.Ok? ==> ValidSetup(r.value) && r.value.d == d && [r.value.buffer] == buffer
    ensures r.Ok? ==> (r.value.forced.None? <==> NormalizePairJs(p).value.None?)
    ensures r.Ok? && r.value.forced.Some? ==>
      NormalizePairJs(p).value.value == ([r.value.forced.value.0], [r.value.forced.value.1])
    ensures r.Err? ==> !r.error.BufferRequired? && !r.error.Failed?
  {
    if !SchemeLetter(d, buffer) then Err(BufferNotInScheme)
    else
      match NormalizePairJs(p)
      case Err(e) => Err(e)
      case Ok(np) =>
        FindBlockIsHome(d, buffer[0]);
        assert [buffer[0]] == buffer;
        var bufIdx := FindBlock(d.blocks, buffer).value;
        if np.None? then Trimmed(d, buffer[0], None)
        else
          match CheckForcedJs(d, bufIdx, np.value)
          case Err(e) => Err(e)
          case Ok(c) => Trimmed(d, buffer[0], Some(c))
  }

  /** The checks of `basic_five_cycle` (python/five_cycle.py) after the scheme is built, in order. */
  function SetupPy(d: SchemeData, buffer: string, p: PairInput): (r: Result<Setup, FcError>)
    requires Consistent(d)
    ensures !SchemeLetter(d, buffer) ==> r == Err(BufferNotInScheme)
    ensures SchemeLetter(d, buffer) && ValidateForcedPairPy(d, buffer[0], p).Err? ==>
      r == Err(ValidateForcedPairPy(d, buffer[0], p).error)
    ensures r.Ok? <==>
      && SchemeLetter(d, buffer)
      && ValidateForcedPairPy(d, buffer[0], p).Ok?
      && d.refPos[buffer[0]].pos + 4 < |d.blocks|
    ensures r.Ok? ==> ValidSetup(r.value) && r.value.d == d && [r.value.buffer] == buffer
    ensures r.Ok? ==> r.value.forced == NormalizePairPy(p).value
    ensures r.Ok? && r.value.forced.Some? ==> PairOnTwoBlocks(d, r.value.forced.value)
    ensures r.Err? ==> !r.error.BufferRequired? && !r.error.Failed?
  {
    if !SchemeLetter(d, buffer) then Err(BufferNotInScheme)
    else
      match ValidateForcedPairPy(d, buffer[0], p)
      case Err(e) => Err(e)
      case Ok(np) => Trimmed(d, buffer[0], np)
  }

  /** The JavaScript checks accept a pair of equal letters, which the Python checks refuse. */
  lemma EqualLettersAcceptedByJsOnly(d: SchemeData, buffer: char, x: char)
    requires Consistent(d) && AfterBuffer(d, buffer, x) && d.refPos[buffer].pos + 4 < |d.blocks|
    requires UpperChar(x) == x && !IsJsSpace(x) && !IsPySpace(x)
    ensures SetupJs(d, [buffer], PairText([x, x])).Ok?
    ensures SetupJs(d, [buffer], PairText([x, x])).value.forced == Some((x, x))
    ensures SetupPy(d, [buffer], PairText([x, x])) == Err(ForcedLettersEqual)
  {
    TrimClean([x, x], IsJsSpace);
    TrimClean([x, x], IsPySpace);
    assert Upper([x, x]) == [x, x];
    assert NormalizePairJs(PairText([x, x])) == Ok(Some(([x], [x])));
    assert [buffer][0] == buffer;
  }

  /** `Math.max(1, Math.floor(maxAttempts))` / `max(1, int(max_attempts))` for a whole number. */
  function AttemptCount(maxAttempts: int): (n: nat)
    ensures n >= 1 && n >= maxAttempts
    ensures maxAttempts >= 1 ==> n == maxAttempts
    ensures maxAttempts < 1 ==> n == 1
  {
    if maxAttempts < 1 then 1 else maxAttempts
  }

  // ---------------------------------------------------------------------------
  // One attempt

  /** The pieces and the first two commutators of an attempt, with the orientation recorded for each piece. */
  datatype Picks = Picks(pieces: seq<string>, forcedSecond: bool, first: Comm, second: Comm, orient: map<string, char>)

  /** Every recorded orientation is a sticker of its piece. */
  ghost predicate Oriented(m: map<string, char>) {
    forall k :: k in m ==> m[k] in k
  }

  /** `recordOrientation` / `record_orientation`. */
  function Record(m: map<string, char>, a: string, b: string, c: Comm): (r: map<string, char>)
    requires CommOn(c, a, b)
    ensures Oriented(m) ==> Oriented(r)
    ensures a in r && b in r && r[b] == c.1
  {
    m[a := c.0][b := c.1]
  }

  /** The four pieces are different when the forced pair, if any, sits on two blocks. */
  ghost predicate DistinctWhenItCan(s: Setup, pieces: seq<string>)
    requires ValidSetup(s)
  {
    (s.forced.None? || s.d.refPos[s.forced.value.0].pos != s.d.refPos[s.forced.value.1].pos) ==> Distinct(pieces)
  }

  ghost predicate GoodPicks(s: Setup, p: Picks)
    requires ValidSetup(s)
  {
    && |p.pieces| == 4
    && (forall i :: 0 <= i < 4 ==> p.pieces[i] in s.available)
    && DistinctWhenItCan(s, p.pieces)
    && CommOn(p.first, p.pieces[0], p.pieces[1])
    && CommOn(p.second, p.pieces[2], p.pieces[3])
    && (s.forced.None? ==> !p.forcedSecond)
    && (s.forced.Some? ==> (if p.forcedSecond then p.second else p.first) == s.forced.value)
    && Oriented(p.orient)
  }

  /** `pool`: the pieces after the buffer, except the two given ones. */
  function Pool(xs: seq<string>, a: string, b: string): (r: seq<string>)
    ensures forall x :: x in r <==> x in xs && x != a && x != b
    ensures Distinct(xs) ==> Distinct(r)
  {
    if |xs| == 0 then []
    else
      var rest := Pool(xs[1..], a, b);
      assert forall x :: x in xs <==> x == xs[0] || x in xs[1..];
      if xs[0] == a || xs[0] == b then
        assert Distinct(xs) ==> Distinct(xs[1..]) by {
          if Distinct(xs) { DistinctSlice(xs, 1, |xs|); }
        }
        rest
      else
        assert Distinct(xs) ==> Distinct([xs[0]] + rest) by {
          if Distinct(xs) {
            DistinctSlice(xs, 1, |xs|);
            ConsDistinct(xs[0], rest);
          }
        }
        [xs[0]] + rest
  }

  lemma ConsDistinct<T>(x: T, s: seq<T>)
    requires Distinct(s) && x !in s
    ensures Distinct([x] + s)
  {
    var t := [x] + s;
    forall i, j | 0 <= i < j < |t| ensures t[i] != t[j] {
      assert t[j] == s[j - 1];
      if i > 0 {
        assert t[i] == s[i - 1];
      }
    }
  }

  /** The pool of extra pieces for a forced pair. */
  function ForcedPool(s: Setup): (r: seq<string>)
    requires ValidSetup(s) && s.forced.Some?
  {
    var (x, y) := s.forced.value;
    Pool(s.available, s.d.blocks[s.d.refPos[x].pos], s.d.blocks[s.d.refPos[y].pos])
  }

  /**
   * The choice of pieces and of the first two commutators: with a forced pair,
   * its two blocks and two other pieces, with a coin deciding whether the pair
   * is the first or the second commutator; without one, four pieces drawn
   * from those after the buffer. Gives up on the attempt when fewer than two
   * other pieces remain.
   */
  method PickPieces(s: Setup, r: Rng) returns (res: Option<Picks>, r': Rng)
    requires ValidSetup(s)
    ensures res.None? <==> s.forced.Some? && |ForcedPool(s)| < 2
    ensures res.Some? ==> GoodPicks(s, res.value)
  {
    if s.forced.Some? {
      res, r' := PickForced(s, r);
    } else {
      var p;
      p, r' := PickFree(s, r);
      res := Some(p);
    }
  }

  /** With a forced pair: its two blocks, two extra pieces, and a coin for where the pair goes. */
  method PickForced(s: Setup, r: Rng) returns (res: Option<Picks>, r': Rng)
    requires ValidSetup(s) && s.forced.Some?
    ensures res.None? <==> |ForcedPool(s)| < 2
    ensures res.Some? ==> GoodPicks(s, res.value)
  {
    hide Consistent, RandomPair, RandomLetter, Without, Choice, Record, PlaceForced, GoodPicks;
    r' := r;
    AvailableDistinct(s);
    var (x, y) := s.forced.value;
    AfterBufferPiece(s, x);
    AfterBufferPiece(s, y);
    var fa := s.d.blocks[s.d.refPos[x].pos];
    var fb := s.d.blocks[s.d.refPos[y].pos];
    var pool := Pool(s.available, fa, fb);
    if |pool| < 2 {
      return None, r';
    }
    var extras;
    extras, r' := Sample(pool, 2, r');
    var e0, e1 := extras.value[0], extras.value[1];
    LaterPiece(s, e0);
    LaterPiece(s, e1);
    var coin := Next(r', 2);
    r' := coin.1;
    var rp := RandomPair(e0, e1, s.buffer, r');
    r' := rp.value.1;
    res := Some(PlaceForced((x, y), fa, fb, rp.value.0, e0, e1, coin.0 != 0));
    PlaceForcedGood(s, fa, fb, rp.value.0, e0, e1, coin.0 != 0);
  }

  /** The picks with the forced pair as the first commutator, or, when `second`, as the second. */
  function PlaceForced(pair: Comm, fa: string, fb: string, c: Comm, e0: string, e1: string, second: bool): Picks
    requires CommOn(pair, fa, fb) && CommOn(c, e0, e1)
  {
    if second then Picks([e0, e1, fa, fb], true, c, pair, Record(Record(map[], e0, e1, c), fa, fb, pair))
    else Picks([fa, fb, e0, e1], false, pair, c, Record(Record(map[], fa, fb, pair), e0, e1, c))
  }

  lemma PlaceForcedGood(s: Setup, fa: string, fb: string, c: Comm, e0: string, e1: string, second: bool)
    requires ValidSetup(s) && s.forced.Some?
    requires fa == s.d.blocks[s.d.refPos[s.forced.value.0].pos] && fb == s.d.blocks[s.d.refPos[s.forced.value.1].pos]
    requires CommOn(s.forced.value, fa, fb) && CommOn(c, e0, e1)
    requires fa in s.available && fb in s.available && e0 in s.available && e1 in s.available
    requires e0 != fa && e0 != fb && e1 != fa && e1 != fb && e0 != e1
    ensures GoodPicks(s, PlaceForced(s.forced.value, fa, fb, c, e0, e1, second))
  {
    hide Consistent;
    var p := PlaceForced(s.forced.value, fa, fb, c, e0, e1, second);
    ForcedPiecesDistinct(s, fa, fb, e0, e1, p.pieces);
  }

  /** Without a forced pair: four pieces drawn from those after the buffer, and random stickers on each. */
  method PickFree(s: Setup, r: Rng) returns (res: Picks, r': Rng)
    requires ValidSetup(s) && s.forced.None?
    ensures GoodPicks(s, res)
  {
    hide Consistent, RandomPair, RandomLetter, Without, Choice, Record;
    AvailableDistinct(s);
    var selected;
    selected, r' := Sample(s.available, 4, r);
    var sel := selected.value;
    LaterPiece(s, sel[0]);
    LaterPiece(s, sel[1]);
    LaterPiece(s, sel[2]);
    LaterPiece(s, sel[3]);
    var p1 := RandomPair(sel[0], sel[1], s.buffer, r');
    r' := p1.value.1;
    var p2 := RandomPair(sel[2], sel[3], s.buffer, r');
    r' := p2.value.1;
    var m := Record(Record(map[], sel[0], sel[1], p1.value.0), sel[2], sel[3], p2.value.0);
    res := Picks(sel, false, p1.value.0, p2.value.0, m);
  }

  /** A letter after the buffer lies on a piece after the buffer. */
  lemma AfterBufferPiece(s: Setup, x: char)
    requires ValidSetup(s) && AfterBuffer(s.d, s.buffer, x)
    ensures s.d.refPos[x].pos < |s.d.blocks|
    ensures s.d.blocks[s.d.refPos[x].pos] in s.available
    ensures x in s.d.blocks[s.d.refPos[x].pos]
  {
    var b := s.d.refPos[s.buffer].pos;
    var p := s.d.refPos[x].pos;
    assert s.available[p - b - 1] == s.d.blocks[p];
  }

  /** The forced blocks and the two extras are four different pieces when the forced letters sit on two blocks. */
  lemma ForcedPiecesDistinct(s: Setup, fa: string, fb: string, e0: string, e1: string, pieces: seq<string>)
    requires ValidSetup(s) && s.forced.Some?
    requires fa == s.d.blocks[s.d.refPos[s.forced.value.0].pos] && fb == s.d.blocks[s.d.refPos[s.forced.value.1].pos]
    requires e0 != fa && e0 != fb && e1 != fa && e1 != fb && e0 != e1
    requires pieces == [fa, fb, e0, e1] || pieces == [e0, e1, fa, fb]
    ensures DistinctWhenItCan(s, pieces)
  {
    if s.d.refPos[s.forced.value.0].pos != s.d.refPos[s.forced.value.1].pos {
      BlocksDistinct(s.d);
    }
  }

  /**
   * The third commutator, on (J, K) or (J, L): random stickers, or, when
   * orientations are kept, the stickers already recorded for both pieces.
   */
  method ThirdComm(s: Setup, p: Picks, randomize: bool, r: Rng) returns (third: Comm, r': Rng)
    requires ValidSetup(s) && GoodPicks(s, p)
    ensures CommOn(third, p.pieces[1], p.pieces[2]) || CommOn(third, p.pieces[1], p.pieces[3])
  {
    var choice;
    choice, r' := Choice([(p.pieces[1], p.pieces[2]), (p.pieces[1], p.pieces[3])], r).0,
                  Choice([(p.pieces[1], p.pieces[2]), (p.pieces[1], p.pieces[3])], r).1;
    var (a, b) := choice;
    if !randomize && a in p.orient && b in p.orient {
      third := (p.orient[a], p.orient[b]);
    } else {
      LaterPiece(s, a);
      LaterPiece(s, b);
      var rp := RandomPair(a, b, s.buffer, r');
      third, r' := rp.value.0, rp.value.1;
    }
  }

  /** What every successful attempt guarantees. */
  ghost predicate GoodAttempt(s: Setup, t: Attempt)
    requires ValidSetup(s)
  {
    && |t.pieces| == 4
    && (forall i :: 0 <= i < 4 ==> t.pieces[i] in s.available)
    && DistinctWhenItCan(s, t.pieces)
    && |t.initial| == 3
    && CommOn(t.initial[0], t.pieces[0], t.pieces[1])
    && CommOn(t.initial[1], t.pieces[2], t.pieces[3])
    && (CommOn(t.initial[2], t.pieces[1], t.pieces[2]) || CommOn(t.initial[2], t.pieces[1], t.pieces[3]))
    && (forall i :: 0 <= i < 3 ==> PairAfterBuffer(s.d, s.buffer, t.initial[i]))
    && (s.forced.None? ==> !t.forcedSecond)
    && (s.forced.Some? ==> t.initial[if t.forcedSecond then 1 else 0] == s.forced.value)
    && ValidConfig(s.d, SolvedConfig(|s.d.blocks|))
    && ApplyComms(s.d, SolvedConfig(|s.d.blocks|), s.buffer, t.initial).Some?
    && TraceOf(s.d, ApplyComms(s.d, SolvedConfig(|s.d.blocks|), s.buffer, t.initial).value, s.buffer, 200) == Ok(t.trace)
    && IsBufferFiveCycle(t.trace, s.buffer)
  }

  /** The letters of commutators on pieces after the buffer are after the buffer. */
  lemma CommAfterBuffer(s: Setup, c: Comm, a: string, b: string)
    requires ValidSetup(s) && a in s.available && b in s.available && CommOn(c, a, b)
    ensures PairAfterBuffer(s.d, s.buffer, c)
  {
    LaterPiece(s, a);
    LaterPiece(s, b);
  }

  /**
   * One pass of the attempt loop: pick pieces, build the three commutators,
   * apply them to a solved puzzle and trace the buffer; succeed when the trace
   * is a five-cycle through the buffer.
   */
  method RunAttempt(s: Setup, randomize: bool, r: Rng) returns (res: Option<Attempt>, r': Rng)
    requires ValidSetup(s)
    ensures res.Some? ==> GoodAttempt(s, res.value)
  {
    hide ApplyComms, TraceOf, TraceRest, Home, LetterAtSlot, SwapAt, SwapResult, ThreeCycleResult, Consistent, ValidConfig;
    var picks;
    picks, r' := PickPieces(s, r);
    if picks.None? {
      return None, r';
    }
    var p := picks.value;
    var third;
    third, r' := ThirdComm(s, p, randomize, r');
    var initial := [p.first, p.second, third];
    CommAfterBuffer(s, p.first, p.pieces[0], p.pieces[1]);
    CommAfterBuffer(s, p.second, p.pieces[2], p.pieces[3]);
    if CommOn(third, p.pieces[1], p.pieces[2]) {
      CommAfterBuffer(s, third, p.pieces[1], p.pieces[2]);
    } else {
      CommAfterBuffer(s, third, p.pieces[1], p.pieces[3]);
    }
    assert CommLettersIn(s.d, initial);
    var st, ok := ApplyCommSequence(s.d, initial, s.buffer);
    var trace := st.TraceFromBuffer(s.buffer, 200);
    if !IsBufferFiveCycle(trace.value, s.buffer) {
      return None, r';
    }
    res := Some(Attempt(p.pieces, p.forcedSecond, initial, trace.value));
  }

  /** The attempt loop: at most `attempts` passes, stopping at the first success. */
  method SearchAttempts(s: Setup, attempts: nat, randomize: bool, r: Rng)
    returns (res: Result<Attempt, FcError>, r': Rng, tries: nat)
    requires ValidSetup(s)
    ensures 1 <= tries <= attempts || (attempts == 0 && tries == 0)
    ensures res.Ok? ==> GoodAttempt(s, res.value)
    ensures res.Err? ==> res.error == Failed && tries == attempts
  {
    r' := r;
    tries := 0;
    while tries < attempts
      invariant tries <= attempts
    {
      var a;
      a, r' := RunAttempt(s, randomize, r');
      tries := tries + 1;
      if a.Some? {
        return Ok(a.value), r', tries;
      }
    }
    res := Err(Failed);
  }

  // ---------------------------------------------------------------------------
  // Closing the cycle

  /** `isBufferFiveCycle` / `_is_buffer_five_cycle`. */
  predicate IsBufferFiveCycle(trace: seq<char>, buffer: char) {
    |trace| == 6 && trace[0] == buffer && trace[5] == buffer && |Elems(trace[..5])| == 5
  }

  /** A five-cycle through the buffer is a trace of five different letters that returns to the buffer. */
  lemma FiveCycleShape(trace: seq<char>, buffer: char)
    ensures IsBufferFiveCycle(trace, buffer) <==>
      |trace| == 6 && trace[0] == buffer && trace[5] == buffer && Distinct(trace[..5])
  {
    if |trace| == 6 {
      ElemsSize(trace[..5]);
    }
  }

  /** `cleanupPairs` / `cleanup_pairs`: the two commutators read backwards off the trace. */
  function Cleanup(trace: seq<char>): (pairs: seq<Comm>)
    requires |trace| >= 5
    ensures |pairs| == 2
  {
    [(trace[4], trace[3]), (trace[2], trace[1])]
  }

  /** The commutators take pieces I, J, then K, L, then J and K or J and L. */
  predicate Shaped(pieces: seq<string>, comms: seq<Comm>)
    requires |pieces| == 4 && |comms| >= 3
  {
    && CommOn(comms[0], pieces[0], pieces[1])
    && CommOn(comms[1], pieces[2], pieces[3])
    && (CommOn(comms[2], pieces[1], pieces[2]) || CommOn(comms[2], pieces[1], pieces[3]))
  }

  /** What a returned drill guarantees, in both implementations. */
  ghost predicate GoodDrill(s: Setup, out: Drill)
    requires ValidSetup(s)
  {
    |out.comms| == 5 && DrillPieces(s, out.pieces, out.comms) && DrillCycle(s, out.comms, out.trace)
  }

  /** The pieces of a drill: four pieces after the buffer, on which the first three commutators sit. */
  ghost predicate DrillPieces(s: Setup, pieces: seq<string>, comms: seq<Comm>)
    requires ValidSetup(s) && |comms| == 5
  {
    && |pieces| == 4
    && (forall i :: 0 <= i < 4 ==> pieces[i] in s.available)
    && DistinctWhenItCan(s, pieces)
    && (Shaped(pieces, comms) || Shaped(SwapPairs(pieces), comms))
  }

  /**
   * The commutators of a drill: three on letters after the buffer, the forced
   * pair among the first two, leaving a five-cycle through the buffer that the
   * last two, read backwards off the trace, close.
   */
  ghost predicate DrillCycle(s: Setup, comms: seq<Comm>, trace: seq<char>)
    requires ValidSetup(s) && |comms| == 5
  {
    && (forall i :: 0 <= i < 3 ==> PairAfterBuffer(s.d, s.buffer, comms[i]))
    && (s.forced.Some? ==> comms[0] == s.forced.value || comms[1] == s.forced.value)
    && IsBufferFiveCycle(trace, s.buffer)
    && Distinct(trace[..5])
    && (forall i :: 1 <= i < 5 ==> trace[i] != s.buffer)
    && comms[3] == (trace[4], trace[3])
    && comms[4] == (trace[2], trace[1])
    && ValidConfig(s.d, SolvedConfig(|s.d.blocks|))
    && ApplyComms(s.d, SolvedConfig(|s.d.blocks|), s.buffer, comms[..3]).Some?
    && TraceOf(s.d, ApplyComms(s.d, SolvedConfig(|s.d.blocks|), s.buffer, comms[..3]).value, s.buffer, 200)
       == Ok(trace)
  }

  /** Pieces I, J, K, L listed as K, L, I, J. */
  function SwapPairs(pieces: seq<string>): (r: seq<string>)
    requires |pieces| == 4
    ensures |r| == 4 && multiset(r) == multiset(pieces)
  {
    assert pieces == [pieces[0], pieces[1], pieces[2], pieces[3]];
    [pieces[2], pieces[3], pieces[0], pieces[1]]
  }

  /** `{ selected_pieces: [I, J, K, L], comm_sequence: initial + cleanup, trace }` (five_cycle.js). */
  function DrillJs(t: Attempt): (out: Drill)
    requires |t.trace| >= 5
  {
    Drill(t.pieces, t.initial + Cleanup(t.trace), t.trace)
  }

  /**
   * The Python result: the same, except that with a forced pair the pieces are
   * listed forced blocks first, so a pair forced into the second commutator
   * gives K, L, I, J.
   */
  function DrillPy(t: Attempt): (out: Drill)
    requires |t.trace| >= 5 && |t.pieces| == 4
  {
    if t.forcedSecond then Drill(SwapPairs(t.pieces), t.initial + Cleanup(t.trace), t.trace) else DrillJs(t)
  }

  /** A successful attempt closed by its cleanup pairs is a good drill, with pieces in the order I, J, K, L. */
  lemma DrillJsGood(s: Setup, t: Attempt)
    requires ValidSetup(s) && GoodAttempt(s, t)
    ensures GoodDrill(s, DrillJs(t)) && Shaped(DrillJs(t).pieces, DrillJs(t).comms)
  {
    hide ApplyComms, TraceOf, Consistent, ValidConfig, SolvedConfig;
    var out := DrillJs(t);
    assert out.comms[..3] == t.initial;
    FiveCycleShape(t.trace, s.buffer);
    forall i | 1 <= i < 5 ensures out.trace[i] != s.buffer {
      assert out.trace[..5][0] == s.buffer && out.trace[..5][i] == out.trace[i];
    }
  }

  /** The Python ordering of the pieces gives a good drill too. */
  lemma DrillPyGood(s: Setup, t: Attempt)
    requires ValidSetup(s) && GoodAttempt(s, t)
    ensures GoodDrill(s, DrillPy(t))
  {
    hide DrillCycle, DrillPieces, Consistent;
    DrillJsGood(s, t);
    if t.forcedSecond {
      var js := DrillJs(t);
      assert DrillPieces(s, js.pieces, js.comms);
      SwapPairsKeepsPieces(s, js.pieces, js.comms);
      assert DrillPy(t) == Drill(SwapPairs(js.pieces), js.comms, js.trace);
    }
  }

  /** Listing the pieces as K, L, I, J keeps everything the pieces of a drill promise. */
  lemma SwapPairsKeepsPieces(s: Setup, pieces: seq<string>, comms: seq<Comm>)
    requires ValidSetup(s) && |comms| == 5 && DrillPieces(s, pieces, comms)
    ensures DrillPieces(s, SwapPairs(pieces), comms)
  {
    hide Consistent;
    var q := SwapPairs(pieces);
    var back := SwapPairs(q);
    assert back[0] == pieces[0] && back[1] == pieces[1] && back[2] == pieces[2] && back[3] == pieces[3];
    assert Shaped(pieces, comms) ==> Shaped(back, comms);
    assert forall x :: x in q ==> x in pieces;
    if Distinct(pieces) {
      assert Distinct(q);
    }
  }

  /** The five commutators of a good drill contain the forced pair. */
  lemma ForcedPairIncluded(s: Setup, out: Drill)
    requires ValidSetup(s) && GoodDrill(s, out) && s.forced.Some?
    ensures s.forced.value in out.comms
  {
  }

  /**
   * The cleanup closes the drill: the five commutators, applied to a solved
   * puzzle, leave it solved, so the trace from the buffer is just the buffer.
   * Proved for pieces of at most four stickers, where the five letters of the
   * cycle cannot all sit on the buffer's own piece.
   */
  lemma DrillReturnsToSolved(s: Setup, out: Drill)
    requires ValidSetup(s) && GoodDrill(s, out) && s.d.blockLen < 5
    ensures ValidConfig(s.d, SolvedConfig(|s.d.blocks|))
    ensures ApplyComms(s.d, SolvedConfig(|s.d.blocks|), s.buffer, out.comms) == Some(SolvedConfig(|s.d.blocks|))
    ensures TraceOf(s.d, SolvedConfig(|s.d.blocks|), s.buffer, 200) == Ok([s.buffer, s.buffer])
  {
    var d, b, tr := s.d, s.buffer, out.trace;
    var c0 := SolvedConfig(|d.blocks|);
    SolvedIsValid(d);
    hide ValidConfig, Consistent, ApplyComms, Home, LetterAtSlot, DrillPieces, TraceOf, TraceRest,
      ThreeCycleResult, SwapResult, SwapAt, Locate, SolvedOutside, CommsWithin, IsBufferFiveCycle;
    var init := out.comms[..3];
    var moved := DrillMoves(s, out.pieces, out.comms);
    SolvedIsSolvedOutside(d, moved);
    ApplyKeepsSolvedOutside(d, c0, b, init, moved);
    var c3 := ApplyComms(d, c0, b, init).value;
    CycleFillsMoved(s, c3, tr, moved);
    CloseFiveCycle(d, c3, b, tr[1], tr[2], tr[3], tr[4]);
    var tail := DrillTail(s, out);
    ApplyBoth(d, c0, b, init, tail, c3, c0);
    SolvedTrace(d, b);
  }

  /** A drill is its first three commutators followed by the two read off the trace. */
  lemma DrillTail(s: Setup, out: Drill) returns (tail: seq<Comm>)
    requires ValidSetup(s) && GoodDrill(s, out)
    ensures |out.trace| == 6 && tail == [(out.trace[4], out.trace[3]), (out.trace[2], out.trace[1])]
    ensures out.comms == out.comms[..3] + tail
  {
    hide ApplyComms, TraceOf, ValidConfig, Consistent;
    tail := [(out.trace[4], out.trace[3]), (out.trace[2], out.trace[1])];
    assert out.comms[3] == tail[0] && out.comms[4] == tail[1];
  }

  /**
   * The positions a drill's first three commutators can move: the buffer's
   * piece and the four pieces, five positions at most.
   */
  lemma DrillMoves(s: Setup, pieces: seq<string>, comms: seq<Comm>) returns (moved: set<int>)
    requires ValidSetup(s) && |comms| == 5 && DrillPieces(s, pieces, comms)
    ensures s.d.refPos[s.buffer].pos in moved && CommsWithin(s.d, comms[..3], moved)
    ensures |moved| <= 5
  {
    hide Consistent, DistinctWhenItCan;
    var p0 := PiecePosition(s, pieces[0]);
    var p1 := PiecePosition(s, pieces[1]);
    var p2 := PiecePosition(s, pieces[2]);
    var p3 := PiecePosition(s, pieces[3]);
    moved := {s.d.refPos[s.buffer].pos, p0, p1, p2, p3};
    var ps := if Shaped(pieces, comms) then pieces else SwapPairs(pieces);
    assert ps[0] in pieces && ps[1] in pieces && ps[2] in pieces && ps[3] in pieces;
    ShapedWithin(s, ps, comms, moved);
  }

  /** Commutators shaped on four pieces whose letters all sit in `moved` stay within `moved`. */
  lemma ShapedWithin(s: Setup, ps: seq<string>, comms: seq<Comm>, moved: set<int>)
    requires ValidSetup(s) && |ps| == 4 && |comms| >= 3 && Shaped(ps, comms)
    requires forall k, ch :: 0 <= k < 4 && ch in ps[k] ==> ch in s.d.refPos && s.d.refPos[ch].pos in moved
    ensures CommsWithin(s.d, comms[..3], moved)
  {
    forall i | 0 <= i < 3
      ensures comms[i].0 in s.d.refPos && comms[i].1 in s.d.refPos
      ensures s.d.refPos[comms[i].0].pos in moved && s.d.refPos[comms[i].1].pos in moved
    {
      assert exists k :: 0 <= k < 4 && comms[i].0 in ps[k];
      assert exists k :: 0 <= k < 4 && comms[i].1 in ps[k];
    }
  }

  /** The position of a piece after the buffer, which every letter on it calls home. */
  lemma PiecePosition(s: Setup, piece: string) returns (p: int)
    requires ValidSetup(s) && piece in s.available
    ensures 0 <= p < |s.d.blocks| && s.d.blocks[p] == piece
    ensures forall ch :: ch in piece ==> ch in s.d.refPos && s.d.refPos[ch].pos == p
  {
    var j :| 0 <= j < |s.available| && s.available[j] == piece;
    p := s.d.refPos[s.buffer].pos + 1 + j;
    forall ch | ch in piece ensures ch in s.d.refPos && s.d.refPos[ch].pos == p {
      var t :| 0 <= t < |piece| && piece[t] == ch;
      assert s.d.refPos[s.d.blocks[p][t]] == Slot(p, t);
    }
  }

  /**
   * After the first three commutators the five letters of a five-cycle lie
   * on five different pieces, and those are all the positions that moved.
   */
  lemma CycleFillsMoved(s: Setup, c: Config, tr: seq<char>, moved: set<int>)
    requires ValidSetup(s) && ValidConfig(s.d, c) && SolvedOutside(s.d, c, moved) && s.d.blockLen < 5
    requires |moved| <= 5
    requires TraceOf(s.d, c, s.buffer, 200) == Ok(tr) && IsBufferFiveCycle(tr, s.buffer) && Distinct(tr[..5])
    ensures |tr| == 6
    ensures forall i :: 0 <= i < 5 ==> tr[i] in s.d.refPos && Home(s.d, c, tr[i]) == tr[i + 1]
    ensures var q0, q1, q2, q3, q4 := s.d.refPos[tr[0]].pos, s.d.refPos[tr[1]].pos, s.d.refPos[tr[2]].pos,
        s.d.refPos[tr[3]].pos, s.d.refPos[tr[4]].pos;
      && q0 != q1 && q0 != q2 && q0 != q3 && q0 != q4 && q1 != q2 && q1 != q3 && q1 != q4
      && q2 != q3 && q2 != q4 && q3 != q4
      && SolvedOutside(s.d, c, {q0, q1, q2, q3, q4})
  {
    var d := s.d;
    hide Home, TraceOf;
    assert forall i :: 0 <= i < 5 ==> tr[..5][i] == tr[i];
    FiveCyclePieces(d, c, tr[0], tr[1], tr[2], tr[3], tr[4]);
    var h := seq(5, i requires 0 <= i < 5 => d.refPos[tr[i]]);
    var q0, q1, q2, q3, q4 := h[0].pos, h[1].pos, h[2].pos, h[3].pos, h[4].pos;
    if q0 == q1 {
      assert false;
    }
    var q := {q0, q1, q2, q3, q4};
    forall i | 0 <= i < 5 ensures h[i].pos in moved {
      if h[i].pos !in moved {
        FixedWhenSolved(d, c, tr[i]);
      }
    }
    assert |q| == 5;
    SubsetSameSize(q, moved);
  }

  /** A letter whose home position is solved is its own successor. */
  lemma FixedWhenSolved(d: SchemeData, c: Config, t: char)
    requires Consistent(d) && ValidConfig(d, c) && t in d.refPos
    requires c.pieces[d.refPos[t].pos] == d.refPos[t].pos && c.oris[d.refPos[t].pos] == 0
    ensures Home(d, c, t) == t
  {
    SolvedPositionShows(d, c, d.refPos[t].pos, d.refPos[t].slot);
  }

  /** A subset at least as large as its superset is all of it. */
  lemma SubsetSameSize<T>(a: set<T>, b: set<T>)
    requires a <= b && |b| <= |a|
    ensures a == b
  {
    if x :| x in b && x !in a {
      assert a <= b - {x};
      assert |b - {x}| == |b| - 1;
      SubsetSize(a, b - {x});
    }
  }

  lemma {:induction false} SubsetSize<T>(a: set<T>, b: set<T>)
    requires a <= b
    ensures |a| <= |b|
  {
    assert b == a + (b - a);
  }

  // ---------------------------------------------------------------------------
  // Rotation

  /** `randomShiftComms` / `random_shift_comms`: the sequence read from a random starting index. */
  function RandomShiftComms<T>(comms: seq<T>, r: Rng): (res: (seq<T>, Rng))
    ensures IsRotation(res.0, comms)
    ensures multiset(res.0) == multiset(comms)
  {
    if |comms| == 0 then
      assert comms == Rotate(comms, 0);
      ([], r)
    else
      var (offset, r') := Next(r, |comms|);
      if offset == 0 then
        assert comms == Rotate(comms, 0);
        (comms, r')
      else
        assert comms[offset..] + comms[..offset] == Rotate(comms, offset);
        (comms[offset..] + comms[..offset], r')
  }

  /** Every rotation is a possible result. */
  lemma RandomShiftReaches<T>(comms: seq<T>, k: nat)
    requires k < |comms|
    ensures RandomShiftComms(comms, Rng([k])).0 == Rotate(comms, k)
  {
    NextReaches(k, |comms|, []);
    if k == 0 {
      assert comms == Rotate(comms, 0);
    }
  }

  // ---------------------------------------------------------------------------
  // The generators

  /** The attempt loop and, on success, the drill in the order five_cycle.js returns it. */
  method SearchJs(s: Setup, attempts: nat, randomize: bool, r: Rng) returns (res: Result<Drill, FcError>, r': Rng, tries: nat)
    requires ValidSetup(s)
    ensures 1 <= tries <= attempts || (attempts == 0 && tries == 0)
    ensures res.Err? ==> res == Err(Failed) && tries == attempts
    ensures res.Ok? ==> GoodDrill(s, res.value) && Shaped(res.value.pieces, res.value.comms)
  {
    hide Consistent, ApplyComms, TraceOf, GoodDrill, Shaped, DrillJs, ValidConfig;
    var found;
    found, r', tries := SearchAttempts(s, attempts, randomize, r);
    if found.Err? {
      return Err(found.error), r', tries;
    }
    DrillJsGood(s, found.value);
    res := Ok(DrillJs(found.value));
  }

  /** The attempt loop and, on success, the drill in the order python/five_cycle.py returns it. */
  method SearchPy(s: Setup, attempts: nat, randomize: bool, r: Rng) returns (res: Result<Drill, FcError>, r': Rng, tries: nat)
    requires ValidSetup(s)
    ensures 1 <= tries <= attempts || (attempts == 0 && tries == 0)
    ensures res.Err? ==> res == Err(Failed) && tries == attempts
    ensures res.Ok? ==> GoodDrill(s, res.value)
  {
    hide Consistent, ApplyComms, TraceOf, GoodDrill, Shaped, DrillPy, ValidConfig;
    var found;
    found, r', tries := SearchAttempts(s, attempts, randomize, r);
    if found.Err? {
      return Err(found.error), r', tries;
    }
    DrillPyGood(s, found.value);
    res := Ok(DrillPy(found.value));
  }

  /**
   * `basicFiveCycle` (five_cycle.js): require a buffer, build the scheme, run
   * the checks, then the attempt loop; the result holds the pieces I, J, K, L,
   * the five commutators and the trace.
   */
  method BasicFiveCycle(buffer: string, scheme: string, maxAttempts: int, forced: PairInput, randomize: bool, r: Rng)
    returns (res: Result<Drill, FcError>, r': Rng, tries: nat, ghost data: SchemeData)
    ensures buffer == "" <==> res == Err(BufferRequired)
    ensures buffer != "" && !WellFormed(NormalizeBlocks(scheme)) ==> res.Err? && res.error.BadScheme?
    ensures tries > 0 ==>
      WellFormed(NormalizeBlocks(scheme)) && data.blocks == NormalizeBlocks(scheme)
      && Consistent(data) && SetupJs(data, buffer, forced).Ok?
    ensures tries <= AttemptCount(maxAttempts)
    ensures res == Err(Failed) ==> tries == AttemptCount(maxAttempts)
    ensures res.Ok? ==>
      tries > 0 && GoodDrill(SetupJs(data, buffer, forced).value, res.value)
      && Shaped(res.value.pieces, res.value.comms)
    ensures buffer != "" && WellFormed(NormalizeBlocks(scheme)) ==>
      data.blocks == NormalizeBlocks(scheme) && Consistent(data)
      && (SetupJs(data, buffer, forced).Err? ==> res == Err(SetupJs(data, buffer, forced).error))
      && (SetupJs(data, buffer, forced).Ok? ==> tries > 0)
  {
    hide SetupJs, GoodDrill, Consistent, WellFormed, ValidSetup, Shaped, GoodAttempt;
    r' := r;
    tries := 0;
    data := SchemeData([], 0, map[]);
    if buffer == "" {
      return Err(BufferRequired), r', tries, data;
    }
    var built := BuildSchemeData(NormalizeBlocks(scheme));
    if built.Err? {
      return Err(BadScheme(built.error)), r', tries, data;
    }
    var sd := built.value;
    data := sd;
    var setup := SetupJs(sd, buffer, forced);
    if setup.Err? {
      return Err(setup.error), r', tries, data;
    }
    res, r', tries := SearchJs(setup.value, AttemptCount(maxAttempts), randomize, r');
  }

  /** `generateFiveCycle` (five_cycle.js): the basic drill with its commutators rotated by the same random source. */
  method GenerateFiveCycle(buffer: string, scheme: string, maxAttempts: int, forced: PairInput, randomize: bool, r: Rng)
    returns (res: Result<Drill, FcError>, r': Rng, ghost data: SchemeData, ghost basic: Drill)
    ensures res.Err? ==> buffer == "" || res.error != BufferRequired
    ensures buffer == "" <==> res == Err(BufferRequired)
    ensures res.Ok? ==> WellFormed(NormalizeBlocks(scheme)) && Consistent(data) && SetupJs(data, buffer, forced).Ok?
    ensures res.Ok? ==> GoodDrill(SetupJs(data, buffer, forced).value, basic)
    ensures res.Ok? ==>
      res.value.pieces == basic.pieces && res.value.trace == basic.trace
      && IsRotation(res.value.comms, basic.comms) && multiset(res.value.comms) == multiset(basic.comms)
    ensures res.Ok? && SetupJs(data, buffer, forced).value.forced.Some? ==>
      SetupJs(data, buffer, forced).value.forced.value in res.value.comms
    ensures res.Ok? && ReturnsToSolved(data, SetupJs(data, buffer, forced).value.buffer, basic.comms) ==>
      ReturnsToSolved(data, SetupJs(data, buffer, forced).value.buffer, res.value.comms)
    ensures res.Ok? && data.blockLen < 5 ==>
      ReturnsToSolved(data, SetupJs(data, buffer, forced).value.buffer, res.value.comms)
  {
    var tries;
    var b;
    b, r', tries, data := BasicFiveCycle(buffer, scheme, maxAttempts, forced, randomize, r);
    basic := Drill([], [], []);
    if b.Err? {
      return Err(b.error), r', data, basic;
    }
    basic := b.value;
    var shifted := RandomShiftComms(b.value.comms, r');
    r' := shifted.1;
    if SetupJs(data, buffer, forced).value.forced.Some? {
      ForcedPairIncluded(SetupJs(data, buffer, forced).value, basic);
      assert SetupJs(data, buffer, forced).value.forced.value in multiset(shifted.0);
    }
    res := Ok(Drill(b.value.pieces, shifted.0, b.value.trace));
    var st := SetupJs(data, buffer, forced).value;
    if data.blockLen < 5 {
      DrillReturnsToSolved(st, basic);
    }
    if ReturnsToSolved(data, st.buffer, basic.comms) {
      RotationReturns(data, st.buffer, basic.comms, shifted.0);
    }
  }

  /**
   * `basic_five_cycle` (python/five_cycle.py) as evidently intended: build the
   * scheme, run the checks, then the attempt loop, with the third
   * commutator's orientation randomized or kept as `randomize` says.
   */
  method BasicFiveCyclePy(buffer: string, scheme: string, maxAttempts: int, forced: PairInput, randomize: bool, r: Rng)
    returns (res: Result<Drill, FcError>, r': Rng, tries: nat, ghost data: SchemeData)
    ensures !WellFormed(NormalizeBlocksPy(scheme)) ==> res.Err? && res.error.BadScheme?
    ensures tries > 0 ==>
      WellFormed(NormalizeBlocksPy(scheme)) && data.blocks == NormalizeBlocksPy(scheme)
      && Consistent(data) && SetupPy(data, buffer, forced).Ok?
    ensures tries <= AttemptCount(maxAttempts)
    ensures res == Err(Failed) ==> tries == AttemptCount(maxAttempts)
    ensures res.Ok? ==> tries > 0 && GoodDrill(SetupPy(data, buffer, forced).value, res.value)
    ensures WellFormed(NormalizeBlocksPy(scheme)) ==>
      data.blocks == NormalizeBlocksPy(scheme) && Consistent(data)
      && (SetupPy(data, buffer, forced).Err? ==> res == Err(SetupPy(data, buffer, forced).error))
      && (SetupPy(data, buffer, forced).Ok? ==> tries > 0)
  {
    hide SetupPy, GoodDrill, Consistent, WellFormed, ValidSetup, Shaped, GoodAttempt;
    r' := r;
    tries := 0;
    data := SchemeData([], 0, map[]);
    var built := BuildSchemeData(NormalizeBlocksPy(scheme));
    if built.Err? {
      return Err(BadScheme(built.error)), r', tries, data;
    }
    var sd := built.value;
    data := sd;
    var setup := SetupPy(sd, buffer, forced);
    if setup.Err? {
      return Err(setup.error), r', tries, data;
    }
    res, r', tries := SearchPy(setup.value, AttemptCount(maxAttempts), randomize, r');
  }

  /**
   * `generate_five_cycle` (python/five_cycle.py): the basic drill, its
   * commutators rotated by a fresh random source rather than the caller's.
   */
  method GenerateFiveCyclePy(buffer: string, scheme: string, maxAttempts: int, forced: PairInput, randomize: bool,
                             r: Rng, shiftRng: Rng)
    returns (res: Result<Drill, FcError>, r': Rng, ghost data: SchemeData, ghost basic: Drill)
    ensures !WellFormed(NormalizeBlocksPy(scheme)) ==> res.Err? && res.error.BadScheme?
    ensures res.Ok? ==>
      |buffer| == 1 && |res.value.pieces| == 4 && |res.value.comms| == 5 && IsBufferFiveCycle(res.value.trace, buffer[0])
    ensures res.Ok? ==> WellFormed(NormalizeBlocksPy(scheme)) && Consistent(data) && SetupPy(data, buffer, forced).Ok?
    ensures res.Ok? ==> GoodDrill(SetupPy(data, buffer, forced).value, basic)
    ensures res.Ok? ==>
      res.value.pieces == basic.pieces && res.value.trace == basic.trace
      && res.value.comms == RandomShiftComms(basic.comms, shiftRng).0
    ensures res.Ok? && SetupPy(data, buffer, forced).value.forced.Some? ==>
      SetupPy(data, buffer, forced).value.forced.value in res.value.comms
    ensures res.Ok? && ReturnsToSolved(data, SetupPy(data, buffer, forced).value.buffer, basic.comms) ==>
      ReturnsToSolved(data, SetupPy(data, buffer, forced).value.buffer, res.value.comms)
    ensures res.Ok? && data.blockLen < 5 ==>
      ReturnsToSolved(data, SetupPy(data, buffer, forced).value.buffer, res.value.comms)
  {
    var tries;
    var b;
    b, r', tries, data := BasicFiveCyclePy(buffer, scheme, maxAttempts, forced, randomize, r);
    basic := Drill([], [], []);
    if b.Err? {
      return Err(b.error), r', data, basic;
    }
    basic := b.value;
    var shifted := RandomShiftComms(b.value.comms, shiftRng).0;
    if SetupPy(data, buffer, forced).value.forced.Some? {
      ForcedPairIncluded(SetupPy(data, buffer, forced).value, basic);
      assert SetupPy(data, buffer, forced).value.forced.value in multiset(shifted);
    }
    res := Ok(Drill(b.value.pieces, shifted, b.value.trace));
    var st := SetupPy(data, buffer, forced).value;
    if data.blockLen < 5 {
      DrillReturnsToSolved(st, basic);
    }
    if ReturnsToSolved(data, st.buffer, basic.comms) {
      RotationReturns(data, st.buffer, basic.comms, shifted);
    }
  }

  // ---------------------------------------------------------------------------
  // The Python attempt loop as written

  /**
   * The attempt loop of python/five_cycle.py as written: an attempt that
   * finds too few extra pieces for a forced pair moves on; any other attempt
   * reaches the test of `randomize_third_orientation`, a name the module never
   * defines, and stops with a `NameError`; after the last attempt the loop
   * raises its `RuntimeError`.
   */
  function AttemptsAsWritten(s: Setup, left: nat): (r: Result<Drill, FcError>)
    requires ValidSetup(s)
  {
    if left == 0 then Err(Failed)
    else if s.forced.Some? && |ForcedPool(s)| < 2 then AttemptsAsWritten(s, left - 1)
    else Err(UndefinedName)
  }

  /** As written, the Python loop never returns a drill: every attempt that gets far enough raises. */
  lemma {:induction false} AsWrittenNeverSucceeds(s: Setup, left: nat)
    requires ValidSetup(s)
    ensures AttemptsAsWritten(s, left).Err?
    ensures left > 0 && (s.forced.None? || |ForcedPool(s)| >= 2) ==> AttemptsAsWritten(s, left) == Err(UndefinedName)
    ensures s.forced.Some? && |ForcedPool(s)| < 2 ==> AttemptsAsWritten(s, left) == Err(Failed)
    decreases left
  {
    if left > 0 && s.forced.Some? && |ForcedPool(s)| < 2 {
      AsWrittenNeverSucceeds(s, left - 1);
    }
  }
}
