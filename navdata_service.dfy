/**
 * `NavdataService.parseStars`: the reader of the client's `stars.txt`. The
 * file is a list of STAR blocks; each block is a header line
 *
 *     STAR <id> @<elevation> ICAO:<airport> RWY:<runway>
 *
 * followed by one line per fix, `<fix>: <constraint>,<constraint>,...`, where
 * a constraint is `alt` or `spd`, one of `=`, `<=`, `>=`, and a number.
 * Blank lines are ignored and surrounding white space is trimmed. Any other
 * line makes the parser throw `IllegalArgumentException` (or
 * `NumberFormatException` for a number beyond `Int`); here that is a
 * `Failed` result naming the offending text.
 *
 * The three regular expressions are written out as functions on the
 * characters, with the same greedy matching, so that a line matches exactly
 * when `matchEntire` would match it.
 */
module NavdataServiceModel {
  import opened Wrappers
  import Decimal
  import Strings
  import Search

  /** `Int.MAX_VALUE`; `toInt()` throws beyond it. */
  const IntMax: int := 0x7fff_ffff

  datatype Kind = Altitude | Speed

  datatype Constraint = Exact(value: int) | Max(value: int) | Min(value: int)

  /**
   * A parsed fix: its id and the calls made on `StarFix.StarFixBuilder`, in
   * the order of the text (the builder is not part of this model).
   */
  datatype StarFix = StarFix(id: string, constraints: seq<(Kind, Constraint)>)

  datatype Star = Star(id: string, airfieldElevationFt: int, fixes: seq<StarFix>)

  /** The exception `parseStars` throws, with the text its message names. */
  datatype ParseError =
    | InvalidHeader(line: string)
    | InvalidFixLine(line: string)
    | InvalidConstraint(constraint: string)
    | InvalidNumber(digits: string)
    | UnsupportedOperator(op: string)

  datatype Parsed<T> = Ok(value: T) | Failed(error: ParseError)

  /** One non-blank line of the file, once parsed. */
  datatype Item = Header(id: string, elevation: int) | Fix(fix: StarFix)

  // ---------------------------------------------------------------------
  // Parsing a list of pieces, stopping at the first failure
  // ---------------------------------------------------------------------

  /** Parses every piece with `f` in order; the first failure is the result, as a thrown exception would be. */
  function ParseAll<T>(xs: seq<string>, f: string -> Parsed<T>): (r: Parsed<seq<T>>)
    ensures r.Ok? ==> |r.value| == |xs|
  {
    if xs == [] then Ok([])
    else
      match ParseAll(xs[..|xs| - 1], f)
      case Failed(e) => Failed(e)
      case Ok(ys) =>
        match f(xs[|xs| - 1])
        case Failed(e) => Failed(e)
        case Ok(y) => Ok(ys + [y])
  }

  /**
   * The list parses iff every piece does, and then piece by piece; otherwise
   * the error is that of the first piece that fails.
   */
  lemma {:induction false} ParseAllSpec<T>(xs: seq<string>, f: string -> Parsed<T>)
    ensures ParseAll(xs, f).Ok? <==> forall k | 0 <= k < |xs| :: f(xs[k]).Ok?
    ensures ParseAll(xs, f).Ok? ==> forall k | 0 <= k < |xs| :: ParseAll(xs, f).value[k] == f(xs[k]).value
    ensures ParseAll(xs, f).Failed? ==>
      exists k | 0 <= k < |xs| ::
        f(xs[k]) == Failed(ParseAll(xs, f).error) && forall j | 0 <= j < k :: f(xs[j]).Ok?
  {
    if xs != [] {
      var init := xs[..|xs| - 1];
      ParseAllSpec(init, f);
      assert forall k | 0 <= k < |init| :: init[k] == xs[k];
    }
  }

  /** Pieces that each parse make a list that parses, piece by piece. */
  lemma {:induction false} ParseAllOk<T>(xs: seq<string>, ys: seq<T>, f: string -> Parsed<T>)
    requires |xs| == |ys| && forall k | 0 <= k < |xs| :: f(xs[k]) == Ok(ys[k])
    ensures ParseAll(xs, f) == Ok(ys)
  {
    ParseAllSpec(xs, f);
    assert ParseAll(xs, f).value == ys;
  }

  /** Once a prefix has failed, the whole list fails with the same error. */
  lemma {:induction false} ParseAllFailedPrefix<T>(xs: seq<string>, i: nat, f: string -> Parsed<T>)
    requires i <= |xs| && ParseAll(xs[..i], f).Failed?
    ensures ParseAll(xs, f) == ParseAll(xs[..i], f)
    decreases |xs| - i
  {
    if i < |xs| {
      assert xs[..i + 1][..i] == xs[..i];
      ParseAllFailedPrefix(xs, i + 1, f);
    } else {
      assert xs[..i] == xs;
    }
  }

  /**
   * Parses the pieces one by one, stopping at the first that fails: the
   * loop over the constraints of a fix line.
   */
  method ParseEach<T>(xs: seq<string>, f: string -> Parsed<T>) returns (r: Parsed<seq<T>>)
    ensures r == ParseAll(xs, f)
  {
    var ys: seq<T> := [];
    var i := 0;
    while i < |xs|
      invariant 0 <= i <= |xs|
      invariant ParseAll(xs[..i], f) == Ok(ys)
    {
      var parsed := f(xs[i]);
      ParseAllStep(xs, i, f);
      if parsed.Failed? {
        ParseAllFailedPrefix(xs, i + 1, f);
        return Failed(parsed.error);
      }
      ys := ys + [parsed.value];
      i := i + 1;
    }
    assert xs[..i] == xs;
    return Ok(ys);
  }

  /** One more piece: its result is appended, or its failure is the result. */
  lemma {:induction false} ParseAllStep<T>(xs: seq<string>, i: nat, f: string -> Parsed<T>)
    requires i < |xs| && ParseAll(xs[..i], f).Ok?
    ensures f(xs[i]).Ok? ==> ParseAll(xs[..i + 1], f) == Ok(ParseAll(xs[..i], f).value + [f(xs[i]).value])
    ensures f(xs[i]).Failed? ==> ParseAll(xs[..i + 1], f) == Failed(f(xs[i]).error)
  {
    assert xs[..i + 1][..i] == xs[..i];
  }

  /** Parsing two lists one after the other is parsing their concatenation. */
  lemma {:induction false} ParseAllAppend<T>(a: seq<string>, b: seq<string>, f: string -> Parsed<T>)
    requires ParseAll(a, f).Ok? && ParseAll(b, f).Ok?
    ensures ParseAll(a + b, f) == Ok(ParseAll(a, f).value + ParseAll(b, f).value)
    decreases |b|
  {
    if b == [] {
      assert a + b == a;
      assert ParseAll(a, f).value + ParseAll(b, f).value == ParseAll(a, f).value;
    } else {
      var init := b[..|b| - 1];
      var last := b[|b| - 1];
      assert ParseAll(init, f).Ok? && f(last).Ok?;
      var y := f(last).value;
      assert ParseAll(b, f).value == ParseAll(init, f).value + [y];
      ParseAllAppend(a, init, f);
      var ab := a + b;
      assert ab[..|ab| - 1] == a + init && ab[|ab| - 1] == last;
      var x := ParseAll(a, f).value;
      assert ParseAll(ab, f) == Ok(ParseAll(a + init, f).value + [y]);
      assert x + (ParseAll(init, f).value + [y]) == (x + ParseAll(init, f).value) + [y];
    }
  }

  // ---------------------------------------------------------------------
  // Lines
  // ---------------------------------------------------------------------

  predicate IsLineBreak(c: char)
  {
    c == '\n' || c == '\r'
  }

  /** The trimmed, non-blank pieces, in order. */
  function CleanLines(pieces: seq<string>): (r: seq<string>)
    ensures |r| <= |pieces|
    ensures forall k | 0 <= k < |r| :: r[k] != [] && Strings.Trimmed(r[k])
  {
    if pieces == [] then []
    else
      var t := Strings.Trim(pieces[0]);
      var rest := CleanLines(pieces[1..]);
      if t == [] then rest
      else
        assert forall k | 1 <= k < |[t] + rest| :: ([t] + rest)[k] == rest[k - 1];
        [t] + rest
  }

  /**
   * `input.lines().map { it.trim() }.filter { it.isNotEmpty() }`. Splitting
   * at every '\n' and every '\r' separately yields an extra empty piece inside
   * each "\r\n", which the filter drops, so the result is that of `lines()`.
   */
  function Lines(input: string): (r: seq<string>)
    ensures forall k | 0 <= k < |r| :: r[k] != [] && Strings.Trimmed(r[k])
  {
    CleanLines(Strings.SplitWhere(input, IsLineBreak))
  }

  /** Lines that are already trimmed and non-blank come back from the text they make up. */
  lemma {:induction false} LinesRoundTrip(ls: seq<string>)
    requires forall k | 0 <= k < |ls| :: ls[k] != [] && Strings.Trimmed(ls[k]) && Strings.NoneSatisfy(ls[k], IsLineBreak)
    ensures Lines(Strings.Join(ls, "\n")) == ls
  {
    if ls != [] {
      Strings.SplitJoinInverse(ls, '\n', IsLineBreak);
      CleanLinesOfClean(ls);
    }
  }

  lemma {:induction false} CleanLinesOfClean(ls: seq<string>)
    requires forall k | 0 <= k < |ls| :: ls[k] != [] && Strings.Trimmed(ls[k])
    ensures CleanLines(ls) == ls
  {
    if ls != [] {
      var tail := ls[1..];
      assert ls == [ls[0]] + tail;
      Strings.TrimTrimmed(ls[0]);
      assert forall k | 0 <= k < |tail| :: tail[k] == ls[k + 1];
      CleanLinesOfClean(tail);
    }
  }

  // ---------------------------------------------------------------------
  // The header line: STAR\s+(\S+)\s+@(\d+)\s+ICAO:(\S+)\s+RWY:(\S+)
  // ---------------------------------------------------------------------

  /** The maximal runs of non-white-space characters, which `\S+` separated by `\s+` must match. */
  function Words(line: string): (r: seq<string>)
    ensures forall k | 0 <= k < |r| :: r[k] != [] && NoSpace(r[k])
  {
    var pieces := Strings.SplitWhere(line, Strings.IsSpace);
    Strings.NonEmptyFrom(pieces);
    Strings.NonEmpty(pieces)
  }

  predicate NoSpace(s: string)
  {
    forall i | 0 <= i < |s| :: !Strings.IsSpace(s[i])
  }

  predicate IsWord(s: string)
  {
    s != [] && NoSpace(s)
  }

  /**
   * The id and elevation digits of a header line, when the whole line matches
   * the header pattern: nothing around it, five words, "STAR", the id,
   * '@' and digits, "ICAO:" and a word, "RWY:" and a word.
   */
  function HeaderFields(line: string): (r: Option<(string, string)>)
    ensures r.Some? ==> IsWord(r.value.0) && r.value.1 != [] && Decimal.AllDigits(r.value.1)
  {
    var w := Words(line);
    if line != [] && Strings.Trimmed(line) && |w| == 5 && w[0] == "STAR"
      && |w[2]| >= 2 && w[2][0] == '@' && Decimal.AllDigits(w[2][1..])
      && |w[3]| > 5 && w[3][..5] == "ICAO:"
      && |w[4]| > 4 && w[4][..4] == "RWY:"
    then Some((w[1], w[2][1..]))
    else None
  }

  /** `toInt()` of a string of digits. */
  function ToInt(digits: string): (r: Parsed<int>)
    requires Decimal.AllDigits(digits)
    ensures r.Ok? <==> Decimal.Value(digits) <= IntMax
    ensures r.Ok? ==> r.value == Decimal.Value(digits)
    ensures r.Failed? ==> r.error == InvalidNumber(digits)
  {
    var v := Decimal.Value(digits);
    if v <= IntMax then Ok(v) else Failed(InvalidNumber(digits))
  }

  /** The id and elevation a header line yields (lines 45-50). */
  function ParseHeader(line: string): (r: Parsed<(string, int)>)
    ensures HeaderFields(line).None? ==> r == Failed(InvalidHeader(line))
    ensures r.Ok? ==> IsWord(r.value.0) && 0 <= r.value.1 <= IntMax
  {
    match HeaderFields(line)
    case None => Failed(InvalidHeader(line))
    case Some((id, digits)) =>
      match ToInt(digits)
      case Failed(e) => Failed(e)
      case Ok(elevation) => Ok((id, elevation))
  }

  /** A header line written with single spaces. */
  function HeaderLine(id: string, elevation: nat, icao: string, runway: string): string
  {
    Strings.Join(["STAR", id, "@" + Decimal.NatToString(elevation), "ICAO:" + icao, "RWY:" + runway], " ")
  }

  /** Reading a written header gives back its id and elevation. */
  lemma {:induction false} HeaderRoundTrip(id: string, elevation: nat, icao: string, runway: string)
    requires IsWord(id) && IsWord(icao) && IsWord(runway) && elevation <= IntMax
    ensures ParseHeader(HeaderLine(id, elevation, icao, runway)) == Ok((id, elevation))
  {
    var digits := Decimal.NatToString(elevation);
    var line := HeaderLine(id, elevation, icao, runway);
    HeaderWords(id, digits, icao, runway);
    var w := Words(line);
    assert w[2][1..] == digits;
    assert w[3][..5] == "ICAO:";
    assert w[4][..4] == "RWY:";
    assert HeaderFields(line) == Some((id, digits));
    Decimal.ValueOfNatToString(elevation);
  }

  /** The words of a written header are the five it was written from. */
  lemma {:induction false} HeaderWords(id: string, digits: string, icao: string, runway: string)
    requires IsWord(id) && IsWord(icao) && IsWord(runway) && digits != [] && Decimal.AllDigits(digits)
    ensures var line := Strings.Join(["STAR", id, "@" + digits, "ICAO:" + icao, "RWY:" + runway], " ");
      line != [] && Strings.Trimmed(line)
      && Words(line) == ["STAR", id, "@" + digits, "ICAO:" + icao, "RWY:" + runway]
  {
    var parts := ["STAR", id, "@" + digits, "ICAO:" + icao, "RWY:" + runway];
    assert IsWord("STAR");
    DigitsAreWord(digits);
    PrefixedWord("@", digits);
    PrefixedWord("ICAO:", icao);
    PrefixedWord("RWY:", runway);
    assert forall k | 0 <= k < 5 :: IsWord(parts[k]);
    var line := Strings.Join(parts, " ");
    Strings.SplitJoinInverse(parts, ' ', Strings.IsSpace);
    Strings.NonEmptyOfNonEmpty(parts);
    Strings.JoinEnds(parts, " ");
    var last := "RWY:" + runway;
    assert line[|line| - 1] == last[|last| - 1];
  }

  lemma {:induction false} DigitsAreWord(digits: string)
    requires digits != [] && Decimal.AllDigits(digits)
    ensures IsWord(digits)
  {
  }

  lemma {:induction false} PrefixedWord(prefix: string, s: string)
    requires NoSpace(prefix) && IsWord(s)
    ensures IsWord(prefix + s)
  {
    assert forall i | 0 <= i < |prefix + s| :: (prefix + s)[i] == if i < |prefix| then prefix[i] else s[i - |prefix|];
  }

  // ---------------------------------------------------------------------
  // The fix line: (\S+):\s*(.+)
  // ---------------------------------------------------------------------

  /** The characters `.` does not match. */
  predicate IsLineTerminator(c: char)
  {
    c == '\n' || c == '\r' || c == '\U{85}' || c == '\U{2028}' || c == '\U{2029}'
  }

  predicate NoTerminator(s: string)
  {
    forall i | 0 <= i < |s| :: !IsLineTerminator(s[i])
  }

  /**
   * What `(.+)` takes of the text after the colon: `\s*` takes the white
   * space in front, but gives back the last character when nothing else
   * is left.
   */
  function Body(rest: string): (r: string)
    requires rest != []
    ensures r != []
  {
    if |rest| > 1 && Strings.IsSpace(rest[0]) then Body(rest[1..]) else rest
  }

  lemma {:induction false} BodyIsSuffix(rest: string)
    requires rest != []
    ensures |Body(rest)| <= |rest| && Body(rest) == rest[|rest| - |Body(rest)|..]
  {
    if |rest| > 1 && Strings.IsSpace(rest[0]) {
      BodyIsSuffix(rest[1..]);
    }
  }

  /** `(\S+):` can end at `p`: a colon after a non-empty run of non-white-space, with something after it. */
  predicate ColonAt(line: string, p: int)
  {
    1 <= p < |line| - 1 && line[p] == ':' && NoSpace(line[..p])
  }

  /** The greedy `\S+` backs off from the right: the last candidate colon at or before `hi`. */
  function LastColon(line: string, hi: int): (r: Option<nat>)
    ensures r.Some? ==> r.value <= hi && ColonAt(line, r.value)
    decreases hi
  {
    if hi < 1 then None
    else if ColonAt(line, hi) then Some(hi)
    else LastColon(line, hi - 1)
  }

  /** No candidate colon lies after the one found, and none at all when none is found. */
  lemma {:induction false} LastColonIsLast(line: string, hi: int)
    ensures LastColon(line, hi).Some? ==> forall q | LastColon(line, hi).value < q <= hi :: !ColonAt(line, q)
    ensures LastColon(line, hi).None? ==> forall q | q <= hi :: !ColonAt(line, q)
    decreases hi
  {
    if hi >= 1 && !ColonAt(line, hi) {
      LastColonIsLast(line, hi - 1);
    }
  }

  /**
   * The fix id and constraint text of a fix line, when the whole line
   * matches. Only the last candidate colon needs trying: an earlier one lies
   * inside the same word, so what follows it contains the whole remainder of
   * the later one, terminator included (see `EarlierColonNoBetter`).
   */
  function FixLineFields(line: string): Option<(string, string)>
  {
    match LastColon(line, |line| - 2)
    case None => None
    case Some(p) =>
      var body := Body(line[p + 1..]);
      if NoTerminator(body) then Some((line[..p], body)) else None
  }

  /**
   * A matched fix line is the id, a colon, and a remainder ending in the
   * constraint text; the id is a word and the text is non-empty with no
   * line terminator.
   */
  lemma {:induction false} FixLineFieldsShape(line: string)
    requires FixLineFields(line).Some?
    ensures var (id, text) := FixLineFields(line).value;
      IsWord(id) && |id| + 1 + |text| <= |line| && line[..|id|] == id && line[|id|] == ':'
      && text != [] && NoTerminator(text) && line[|line| - |text|..] == text
  {
    var p := LastColon(line, |line| - 2).value;
    var rest := line[p + 1..];
    var body := Body(rest);
    assert FixLineFields(line).value == (line[..p], body);
    assert IsWord(line[..p]);
    BodyIsSuffix(rest);
    Strings.SliceOfSuffix(line, p + 1, rest, |rest| - |body|);
    assert p + 1 + (|rest| - |body|) == |line| - |body|;
    assert line[|line| - |body|..] == body;
    assert |line[..p]| == p && line[p] == ':';
  }


  /**
   * Backtracking to an earlier colon cannot rescue a line: if `(.+)` cannot
   * match after the later colon, it cannot match after the earlier one.
   */
  lemma {:induction false} EarlierColonNoBetter(line: string, q: int, p: int)
    requires ColonAt(line, q) && ColonAt(line, p) && q < p
    requires NoTerminator(Body(line[q + 1..]))
    ensures NoTerminator(Body(line[p + 1..]))
  {
    var early := line[q + 1..];
    if q + 1 < p {
      assert early[0] == line[..p][q + 1];
    }
    assert Body(early) == early;
    var late := early[p - q..];
    assert late == line[p + 1..];
    forall i | 0 <= i < |late| ensures !IsLineTerminator(late[i]) {
      assert late[i] == early[p - q + i];
    }
    BodyNoTerminator(late);
  }

  /** What `(.+)` takes keeps a text free of line terminators. */
  lemma {:induction false} BodyNoTerminator(rest: string)
    requires rest != [] && NoTerminator(rest)
    ensures NoTerminator(Body(rest))
  {
    var b := Body(rest);
    BodyIsSuffix(rest);
    forall i | 0 <= i < |b| ensures !IsLineTerminator(b[i]) {
      assert b[i] == rest[|rest| - |b| + i];
    }
  }

  /** A fix line written as the id, ": " and a text that starts with no white space. */
  lemma {:induction false} FixLineFieldsRoundTrip(id: string, text: string)
    requires IsWord(id) && text != [] && !Strings.IsSpace(text[0])
    requires NoTerminator(text)
    ensures FixLineFields(id + ": " + text) == Some((id, text))
  {
    var line := id + ": " + text;
    var p := |id|;
    IdColonAdmissible(id, text);
    NoColonAfterId(id, text);
    LastColonIs(line, |line| - 2, p);
    FixLineFieldsAt(line, p);
    assert line[..p] == id;
  }

  lemma {:induction false} IdColonAdmissible(id: string, text: string)
    requires IsWord(id) && text != [] && !Strings.IsSpace(text[0])
    ensures var line := id + ": " + text;
      ColonAt(line, |id|) && Body(line[|id| + 1..]) == text
  {
    var line := id + ": " + text;
    var p := |id|;
    assert line[..p] == id && line[p] == ':';
    assert line[p + 1..] == " " + text;
    assert (" " + text)[1..] == text;
  }

  lemma {:induction false} NoColonAfterId(id: string, text: string)
    requires IsWord(id)
    ensures var line := id + ": " + text;
      forall q | |id| < q <= |line| - 2 :: !ColonAt(line, q)
  {
    var line := id + ": " + text;
    var p := |id|;
    forall q | p < q <= |line| - 2
      ensures !ColonAt(line, q)
    {
      if q == p + 1 {
        assert line[q] == ' ';
      } else {
        assert line[..q][p + 1] == ' ';
      }
    }
  }

  /** The fields come from the last candidate colon. */
  lemma {:induction false} FixLineFieldsAt(line: string, p: nat)
    requires LastColon(line, |line| - 2) == Some(p) && NoTerminator(Body(line[p + 1..]))
    ensures FixLineFields(line) == Some((line[..p], Body(line[p + 1..])))
  {
  }

  /** The colon found is the candidate with no candidate after it. */
  lemma {:induction false} LastColonIs(line: string, hi: int, p: int)
    requires p <= hi && ColonAt(line, p)
    requires forall q | p < q <= hi :: !ColonAt(line, q)
    ensures LastColon(line, hi) == Some(p)
    decreases hi
  {
    if hi > p {
      LastColonIs(line, hi - 1, p);
    }
  }

  // ---------------------------------------------------------------------
  // A constraint: (alt|spd)([<>=]+)(\d+)
  // ---------------------------------------------------------------------

  predicate IsOperatorChar(c: char)
  {
    c == '<' || c == '>' || c == '='
  }

  /** The length of the run of operator characters `[<>=]+` takes at the front. */
  function OperatorRun(s: string): (n: nat)
    ensures n <= |s|
    ensures forall k | 0 <= k < n :: IsOperatorChar(s[k])
    ensures n < |s| ==> !IsOperatorChar(s[n])
  {
    if s != [] && IsOperatorChar(s[0]) then 1 + OperatorRun(s[1..]) else 0
  }

  /** The kind, operator and digits of a constraint, when the whole text matches. */
  function ConstraintFields(c: string): (r: Option<(Kind, string, string)>)
    ensures r.Some? ==> r.value.1 != [] && r.value.2 != [] && Decimal.AllDigits(r.value.2)
    ensures r.Some? ==> c == (if r.value.0 == Altitude then "alt" else "spd") + r.value.1 + r.value.2
  {
    if |c| < 3 || (c[..3] != "alt" && c[..3] != "spd") then None
    else
      var tail := c[3..];
      var n := OperatorRun(tail);
      if n == 0 || n == |tail| || !Decimal.AllDigits(tail[n..]) then None
      else
        assert c == c[..3] + tail[..n] + tail[n..];
        Some((if c[..3] == "alt" then Altitude else Speed, tail[..n], tail[n..]))
  }

  /** One constraint, as the loop body at lines 60-75 reads it. */
  function ParseConstraint(c: string): (r: Parsed<(Kind, Constraint)>)
    ensures ConstraintFields(c).None? ==> r == Failed(InvalidConstraint(c))
    ensures r.Ok? ==> 0 <= r.value.1.value <= IntMax
    ensures ConstraintFields(c).Some? && Decimal.Value(ConstraintFields(c).value.2) <= IntMax ==>
      var (kind, op, digits) := ConstraintFields(c).value;
      (r.Ok? <==> op in {"=", "<=", ">="})
      && (r.Failed? ==> r.error == UnsupportedOperator(op))
      && (r.Ok? ==> r.value.0 == kind && r.value.1.value == Decimal.Value(digits))
  {
    match ConstraintFields(c)
    case None => Failed(InvalidConstraint(c))
    case Some((kind, op, digits)) =>
      match ToInt(digits)
      case Failed(e) => Failed(e)
      case Ok(value) =>
        if op == "=" then Ok((kind, Exact(value)))
        else if op == "<=" then Ok((kind, Max(value)))
        else if op == ">=" then Ok((kind, Min(value)))
        else Failed(UnsupportedOperator(op))
  }

  function KindText(kind: Kind): string
  {
    match kind
    case Altitude => "alt"
    case Speed => "spd"
  }

  function OperatorText(c: Constraint): (r: string)
    ensures r != [] && forall k | 0 <= k < |r| :: IsOperatorChar(r[k])
  {
    match c
    case Exact(_) => "="
    case Max(_) => "<="
    case Min(_) => ">="
  }

  /** A constraint written as in the file, e.g. "spd<=250". */
  function ConstraintText(call: (Kind, Constraint)): string
    requires call.1.value >= 0
  {
    KindText(call.0) + OperatorText(call.1) + Decimal.NatToString(call.1.value)
  }

  /** Reading a written constraint gives it back. */
  lemma {:induction false} ConstraintRoundTrip(call: (Kind, Constraint))
    requires 0 <= call.1.value <= IntMax
    ensures ParseConstraint(ConstraintText(call)) == Ok(call)
  {
    var digits := Decimal.NatToString(call.1.value);
    ConstraintTextFields(call);
    Decimal.ValueOfNatToString(call.1.value);
    assert ToInt(digits) == Ok(call.1.value);
  }

  /** A written constraint splits back into its kind, operator and digits. */
  lemma {:induction false} ConstraintTextFields(call: (Kind, Constraint))
    requires call.1.value >= 0
    ensures ConstraintFields(ConstraintText(call))
      == Some((call.0, OperatorText(call.1), Decimal.NatToString(call.1.value)))
  {
    var op := OperatorText(call.1);
    var digits := Decimal.NatToString(call.1.value);
    var c := ConstraintText(call);
    assert c[..3] == KindText(call.0);
    var tail := c[3..];
    assert tail == op + digits;
    OperatorRunStops(op, digits);
    assert tail[..|op|] == op && tail[|op|..] == digits;
  }

  lemma {:induction false} OperatorRunStops(op: string, digits: string)
    requires forall k | 0 <= k < |op| :: IsOperatorChar(op[k])
    requires digits != [] && Decimal.AllDigits(digits)
    ensures OperatorRun(op + digits) == |op|
  {
    if op != [] {
      assert (op + digits)[1..] == op[1..] + digits;
      OperatorRunStops(op[1..], digits);
    }
  }

  // ---------------------------------------------------------------------
  // A fix line and a whole line
  // ---------------------------------------------------------------------

  function TrimAll(pieces: seq<string>): (r: seq<string>)
    ensures |r| == |pieces|
    ensures forall k | 0 <= k < |r| :: r[k] == Strings.Trim(pieces[k])
  {
    seq(|pieces|, k requires 0 <= k < |pieces| => Strings.Trim(pieces[k]))
  }

  predicate IsComma(c: char)
  {
    c == ','
  }

  /** `constraintStr.split(",").map { it.trim() }`. */
  function ConstraintTexts(constraintText: string): seq<string>
  {
    TrimAll(Strings.SplitWhere(constraintText, IsComma))
  }

  /** A fix line (lines 52-78). */
  function FixLine(line: string): (r: Parsed<StarFix>)
    ensures FixLineFields(line).None? ==> r == Failed(InvalidFixLine(line))
    ensures r.Ok? ==> FixLineFields(line).Some? && r.value.id == FixLineFields(line).value.0
  {
    match FixLineFields(line)
    case None => Failed(InvalidFixLine(line))
    case Some((fixId, constraintText)) =>
      match ParseAll(ConstraintTexts(constraintText), ParseConstraint)
      case Failed(e) => Failed(e)
      case Ok(calls) => Ok(StarFix(fixId, calls))
  }

  /** A line is a header when it starts with "STAR" (line 42), a fix line otherwise. */
  function ParseLine(line: string): Parsed<Item>
  {
    if Strings.StartsWith(line, "STAR") then
      match ParseHeader(line)
      case Failed(e) => Failed(e)
      case Ok((id, elevation)) => Ok(Header(id, elevation))
    else
      match FixLine(line)
      case Failed(e) => Failed(e)
      case Ok(fix) => Ok(Fix(fix))
  }

  /** A fix line as the file writes it, constraints separated by commas. */
  function FixLineText(fix: StarFix): string
    requires WritableFix(fix)
  {
    fix.id + ": " + Strings.Join(ConstraintTextsOf(fix.constraints), ",")
  }

  function ConstraintTextsOf(calls: seq<(Kind, Constraint)>): (r: seq<string>)
    requires forall k | 0 <= k < |calls| :: calls[k].1.value >= 0
    ensures |r| == |calls|
    ensures forall k | 0 <= k < |r| :: r[k] == ConstraintText(calls[k])
  {
    seq(|calls|, k requires 0 <= k < |calls| => ConstraintText(calls[k]))
  }

  /** The fixes the file can express: a word for an id that is not read as a header, at least one constraint, values that fit an `Int`. */
  predicate WritableFix(fix: StarFix)
  {
    IsWord(fix.id) && !Strings.StartsWith(fix.id, "STAR")
    && fix.constraints != []
    && forall k | 0 <= k < |fix.constraints| :: 0 <= fix.constraints[k].1.value <= IntMax
  }

  /** Reading a written fix line gives the fix back. */
  lemma {:induction false} FixLineRoundTrip(fix: StarFix)
    requires WritableFix(fix)
    ensures ParseLine(FixLineText(fix)) == Ok(Fix(fix))
  {
    FixLineTextReads(fix);
    ParseLineOfFix(FixLineText(fix), fix);
  }

  lemma {:induction false} FixLineTextReads(fix: StarFix)
    requires WritableFix(fix)
    ensures !Strings.StartsWith(FixLineText(fix), "STAR") && FixLine(FixLineText(fix)) == Ok(fix)
  {
    FixLineTextParses(fix);
    FixLineTextNotHeader(fix);
  }

  lemma {:induction false} FixLineTextParses(fix: StarFix)
    requires WritableFix(fix)
    ensures FixLine(FixLineText(fix)) == Ok(fix)
  {
    var body := Strings.Join(ConstraintTextsOf(fix.constraints), ",");
    var line := FixLineText(fix);
    ConstraintListRoundTrip(fix.constraints);
    FixLineFieldsRoundTrip(fix.id, body);
    FixLineOk(line, fix.id, body, fix.constraints);
  }

  lemma {:induction false} FixLineTextNotHeader(fix: StarFix)
    requires WritableFix(fix)
    ensures !Strings.StartsWith(FixLineText(fix), "STAR")
  {
    var body := Strings.Join(ConstraintTextsOf(fix.constraints), ",");
    assert FixLineText(fix) == fix.id + (": " + body);
    NotHeaderLine(fix.id, ": " + body);
  }

  lemma {:induction false} FixLineOk(line: string, id: string, body: string, calls: seq<(Kind, Constraint)>)
    requires FixLineFields(line) == Some((id, body))
    requires ParseAll(ConstraintTexts(body), ParseConstraint) == Ok(calls)
    ensures FixLine(line) == Ok(StarFix(id, calls))
  {
  }

  lemma {:induction false} ParseLineOfFix(line: string, fix: StarFix)
    requires !Strings.StartsWith(line, "STAR") && FixLine(line) == Ok(fix)
    ensures ParseLine(line) == Ok(Fix(fix))
  {
  }

  /** A line that starts with a word not starting with "STAR", then a colon, is not a header. */
  lemma {:induction false} NotHeaderLine(id: string, rest: string)
    requires IsWord(id) && !Strings.StartsWith(id, "STAR") && rest != [] && rest[0] == ':'
    ensures !Strings.StartsWith(id + rest, "STAR")
  {
    var line := id + rest;
    if |id| < 4 {
      assert line[|id|] == ':';
      assert "STAR"[|id|] != ':';
    } else {
      assert line[..4] == id[..4];
    }
  }

  /** The constraints joined with commas read back as the same constraints. */
  lemma {:induction false} ConstraintListRoundTrip(calls: seq<(Kind, Constraint)>)
    requires calls != [] && forall k | 0 <= k < |calls| :: 0 <= calls[k].1.value <= IntMax
    ensures var body := Strings.Join(ConstraintTextsOf(calls), ",");
      body != [] && !Strings.IsSpace(body[0]) && NoTerminator(body)
      && ParseAll(ConstraintTexts(body), ParseConstraint) == Ok(calls)
  {
    var texts := ConstraintTextsOf(calls);
    forall k | 0 <= k < |texts|
      ensures ParseConstraint(texts[k]) == Ok(calls[k])
    {
      ConstraintRoundTrip(calls[k]);
    }
    ParseAllOk(texts, calls, ParseConstraint);
    ConstraintTextsClean(calls);
    CommaJoinSplits(texts);
  }

  /** Written constraints are non-blank, trimmed, and hold no comma and no line terminator. */
  lemma {:induction false} ConstraintTextsClean(calls: seq<(Kind, Constraint)>)
    requires forall k | 0 <= k < |calls| :: 0 <= calls[k].1.value
    ensures var texts := ConstraintTextsOf(calls);
      forall k | 0 <= k < |texts| ::
        texts[k] != [] && Strings.Trimmed(texts[k])
        && Strings.NoneSatisfy(texts[k], IsComma) && Strings.NoneSatisfy(texts[k], IsLineTerminator)
  {
    var texts := ConstraintTextsOf(calls);
    forall k | 0 <= k < |texts|
      ensures texts[k] != [] && Strings.Trimmed(texts[k])
      ensures Strings.NoneSatisfy(texts[k], IsComma) && Strings.NoneSatisfy(texts[k], IsLineTerminator)
    {
      ConstraintTextChars(calls[k]);
    }
  }

  /** Clean pieces joined with commas split and trim back into the same pieces. */
  lemma {:induction false} CommaJoinSplits(texts: seq<string>)
    requires texts != []
    requires forall k | 0 <= k < |texts| ::
      texts[k] != [] && Strings.Trimmed(texts[k])
      && Strings.NoneSatisfy(texts[k], IsComma) && Strings.NoneSatisfy(texts[k], IsLineTerminator)
    ensures var body := Strings.Join(texts, ",");
      body != [] && !Strings.IsSpace(body[0]) && NoTerminator(body)
      && ConstraintTexts(body) == texts
  {
    CommaJoinStarts(texts);
    assert Strings.NoneSatisfy(",", IsLineTerminator);
    JoinKeepsNone(texts, ",", IsLineTerminator);
    assert NoTerminator(Strings.Join(texts, ","));
    Strings.SplitJoinInverse(texts, ',', IsComma);
    forall k | 0 <= k < |texts| ensures Strings.Trim(texts[k]) == texts[k] {
      Strings.TrimTrimmed(texts[k]);
    }
  }

  lemma {:induction false} CommaJoinStarts(texts: seq<string>)
    requires texts != [] && texts[0] != [] && !Strings.IsSpace(texts[0][0])
    ensures var body := Strings.Join(texts, ",");
      body != [] && !Strings.IsSpace(body[0])
  {
    Strings.JoinEnds(texts, ",");
    var body := Strings.Join(texts, ",");
    assert body[..|texts[0]|] == texts[0];
    assert body[0] == texts[0][0];
  }

  /** The characters of a written constraint: letters, operators and digits. */
  lemma {:induction false} ConstraintTextChars(call: (Kind, Constraint))
    requires call.1.value >= 0
    ensures var t := ConstraintText(call);
      t != [] && Strings.Trimmed(t) && Strings.NoneSatisfy(t, IsComma) && Strings.NoneSatisfy(t, IsLineTerminator)
  {
    var t := ConstraintText(call);
    var kind, op, digits := KindText(call.0), OperatorText(call.1), Decimal.NatToString(call.1.value);
    forall i | 0 <= i < |t| ensures Plain(t[i]) {
      if i < 3 {
        assert t[i] == kind[i];
      } else if i < 3 + |op| {
        assert t[i] == op[i - 3];
      } else {
        assert t[i] == digits[i - 3 - |op|];
      }
    }
    PlainText(t);
  }

  /** The characters a constraint is written with. */
  predicate Plain(c: char)
  {
    c in "altspd" || IsOperatorChar(c) || Decimal.IsDigit(c)
  }

  lemma {:induction false} PlainText(t: string)
    requires t != [] && forall i | 0 <= i < |t| :: Plain(t[i])
    ensures Strings.Trimmed(t) && Strings.NoneSatisfy(t, IsComma) && Strings.NoneSatisfy(t, IsLineTerminator)
  {
    assert Plain(t[0]) && Plain(t[|t| - 1]);
  }

  lemma {:induction false} JoinKeepsNone(parts: seq<string>, sep: string, p: char -> bool)
    requires Strings.NoneSatisfy(sep, p)
    requires forall k | 0 <= k < |parts| :: Strings.NoneSatisfy(parts[k], p)
    ensures Strings.NoneSatisfy(Strings.Join(parts, sep), p)
  {
    if |parts| > 1 {
      JoinKeepsNone(parts[1..], sep, p);
      var rest := Strings.Join(parts[1..], sep);
      var j := parts[0] + sep + rest;
      assert forall i | 0 <= i < |j| :: j[i] == if i < |parts[0]| then parts[0][i] else if i < |parts[0]| + |sep| then sep[i - |parts[0]|] else rest[i - |parts[0]| - |sep|];
    }
  }

  // ---------------------------------------------------------------------
  // Grouping the lines into STARs
  // ---------------------------------------------------------------------

  predicate NoHeader(items: seq<Item>)
  {
    forall k | 0 <= k < |items| :: items[k].Fix?
  }

  /** The number of fix lines before the next header. */
  function FixRun(items: seq<Item>): (n: nat)
    ensures n <= |items| && NoHeader(items[..n])
    ensures n < |items| ==> items[n].Header?
  {
    if items != [] && items[0].Fix? then
      var n := 1 + FixRun(items[1..]);
      assert forall k | 1 <= k < n :: items[..n][k] == items[1..][..n - 1][k - 1];
      n
    else 0
  }

  /** The fixes of the fix lines before the next header. */
  function LeadingFixes(items: seq<Item>): (r: seq<StarFix>)
    ensures |r| == FixRun(items)
  {
    if items != [] && items[0].Fix? then [items[0].fix] + LeadingFixes(items[1..]) else []
  }

  /**
   * The STARs a list of parsed lines describes: one per header, in order,
   * holding the fixes of the lines up to the next header; fix lines before
   * the first header belong to no STAR.
   */
  function Group(items: seq<Item>): seq<Star>
  {
    if items == [] then []
    else if items[0].Fix? then Group(items[1..])
    else
      var rest := items[1..];
      [Star(items[0].id, items[0].elevation, LeadingFixes(rest))] + Group(rest[FixRun(rest)..])
  }

  lemma {:induction false} FixRunAppend(xs: seq<Item>, ys: seq<Item>)
    ensures NoHeader(xs) ==>
      FixRun(xs + ys) == |xs| + FixRun(ys) && LeadingFixes(xs + ys) == LeadingFixes(xs) + LeadingFixes(ys)
    ensures !NoHeader(xs) ==>
      FixRun(xs + ys) == FixRun(xs) && LeadingFixes(xs + ys) == LeadingFixes(xs)
  {
    if NoHeader(xs) {
      FixRunAppendFixes(xs, ys);
    } else {
      FixRunAppendHeader(xs, ys);
    }
  }

  lemma {:induction false} FixRunAppendFixes(xs: seq<Item>, ys: seq<Item>)
    requires NoHeader(xs)
    ensures FixRun(xs + ys) == |xs| + FixRun(ys) && LeadingFixes(xs + ys) == LeadingFixes(xs) + LeadingFixes(ys)
  {
    LeadingFixesAppend(xs, ys);
    FixRunOfFixes(xs);
  }

  lemma {:induction false} LeadingFixesAppend(xs: seq<Item>, ys: seq<Item>)
    requires NoHeader(xs)
    ensures LeadingFixes(xs + ys) == LeadingFixes(xs) + LeadingFixes(ys)
  {
    if xs == [] {
      assert xs + ys == ys;
    } else {
      NoHeaderTail(xs);
      LeadingFixesAppend(xs[1..], ys);
      LeadingFixesConsAppend(xs, ys);
    }
  }

  lemma {:induction false} NoHeaderTail(xs: seq<Item>)
    requires xs != [] && NoHeader(xs)
    ensures NoHeader(xs[1..])
  {
    assert forall k | 0 <= k < |xs| - 1 :: xs[1..][k] == xs[k + 1];
  }

  /** One step of `LeadingFixesAppend`: the head fix goes in front of both sides. */
  lemma {:induction false} LeadingFixesConsAppend(xs: seq<Item>, ys: seq<Item>)
    requires xs != [] && xs[0].Fix?
    requires LeadingFixes(xs[1..] + ys) == LeadingFixes(xs[1..]) + LeadingFixes(ys)
    ensures LeadingFixes(xs + ys) == LeadingFixes(xs) + LeadingFixes(ys)
  {
    Search.TailOfAppend(xs, ys);
    Search.Assoc([xs[0].fix], LeadingFixes(xs[1..]), LeadingFixes(ys));
  }

  /** A list of fix lines only is one run. */
  lemma {:induction false} FixRunOfFixes(xs: seq<Item>)
    requires NoHeader(xs)
    ensures FixRun(xs) == |xs|
  {
  }

  lemma {:induction false} FixRunAppendHeader(xs: seq<Item>, ys: seq<Item>)
    requires !NoHeader(xs)
    ensures FixRun(xs + ys) == FixRun(xs) && LeadingFixes(xs + ys) == LeadingFixes(xs)
  {
    var tail := xs[1..];
    assert (xs + ys)[0] == xs[0] && (xs + ys)[1..] == tail + ys;
    if xs[0].Fix? {
      assert !NoHeader(tail) by {
        assert forall k | 0 <= k < |tail| :: tail[k] == xs[k + 1];
      }
      FixRunAppendHeader(tail, ys);
    }
  }

  /** Without a header there is no STAR. */
  lemma {:induction false} GroupNoHeader(items: seq<Item>)
    requires NoHeader(items)
    ensures Group(items) == []
  {
    if items != [] {
      GroupNoHeader(items[1..]);
    }
  }

  /** A header line opens a new, empty STAR after those already there. */
  lemma {:induction false} GroupSnocHeader(xs: seq<Item>, h: Item)
    requires h.Header?
    ensures Group(xs + [h]) == Group(xs) + [Star(h.id, h.elevation, [])]
    decreases |xs|, 1
  {
    var ys := xs + [h];
    if xs == [] {
      assert ys == [h] && ys[1..] == [];
    } else if xs[0].Fix? {
      assert ys[0] == xs[0] && ys[1..] == xs[1..] + [h];
      GroupSnocHeader(xs[1..], h);
    } else {
      GroupSnocHeaderAtHeader(xs, h);
    }
  }

  lemma {:induction false} GroupSnocHeaderAtHeader(xs: seq<Item>, h: Item)
    requires h.Header? && xs != [] && xs[0].Header?
    ensures Group(xs + [h]) == Group(xs) + [Star(h.id, h.elevation, [])]
    decreases |xs|, 0
  {
    var ys, rest := xs + [h], xs[1..];
    if NoHeader(rest) {
      GroupSnocHeaderLastStar(xs, h);
    } else {
      var n := FixRun(rest);
      var head := Star(xs[0].id, xs[0].elevation, LeadingFixes(rest));
      calc {
        Group(ys);
        { assert ys[0] == xs[0] && ys[1..] == rest + [h]; }
        [Star(xs[0].id, xs[0].elevation, LeadingFixes(rest + [h]))] + Group((rest + [h])[FixRun(rest + [h])..]);
        { FixRunAppend(rest, [h]); }
        [head] + Group((rest + [h])[n..]);
        { assert (rest + [h])[n..] == rest[n..] + [h]; }
        [head] + Group(rest[n..] + [h]);
        { GroupSnocHeader(rest[n..], h); }
        [head] + (Group(rest[n..]) + [Star(h.id, h.elevation, [])]);
        ([head] + Group(rest[n..])) + [Star(h.id, h.elevation, [])];
      }
    }
  }

  /** A header after the last STAR's fixes, when that STAR is the only one. */
  lemma {:induction false} GroupSnocHeaderLastStar(xs: seq<Item>, h: Item)
    requires h.Header? && xs != [] && xs[0].Header? && NoHeader(xs[1..])
    ensures Group(xs + [h]) == Group(xs) + [Star(h.id, h.elevation, [])]
  {
    var ys, rest := xs + [h], xs[1..];
    var head := Star(xs[0].id, xs[0].elevation, LeadingFixes(rest));
    var n := FixRun(rest);
    assert n == |rest| && rest[n..] == [];
    assert Group(xs) == [head];
    calc {
      Group(ys);
      { assert ys[0] == xs[0] && ys[1..] == rest + [h]; }
      [Star(xs[0].id, xs[0].elevation, LeadingFixes(rest + [h]))] + Group((rest + [h])[FixRun(rest + [h])..]);
      { FixesBeforeHeader(rest, h); }
      [head] + Group((rest + [h])[n..]);
      { assert (rest + [h])[n..] == [h]; }
      [head] + Group([h]);
      { GroupOneHeader(h); }
      [head] + [Star(h.id, h.elevation, [])];
    }
  }

  lemma {:induction false} FixesBeforeHeader(rest: seq<Item>, h: Item)
    requires h.Header? && NoHeader(rest)
    ensures FixRun(rest + [h]) == |rest| && LeadingFixes(rest + [h]) == LeadingFixes(rest)
  {
    FixRunAppend(rest, [h]);
    assert FixRun([h]) == 0 && LeadingFixes([h]) == [];
    assert LeadingFixes(rest) + [] == LeadingFixes(rest);
  }

  lemma {:induction false} GroupOneHeader(h: Item)
    requires h.Header?
    ensures Group([h]) == [Star(h.id, h.elevation, [])]
  {
    var e: seq<Item> := [];
    assert [h][1..] == e;
    assert FixRun(e) == 0 && LeadingFixes(e) == [] && e[0..] == e && Group(e) == [];
  }

  function AddFix(star: Star, fix: StarFix): Star
  {
    star.(fixes := star.fixes + [fix])
  }

  predicate SnocFixGroups(xs: seq<Item>, f: Item)
    requires f.Fix?
  {
    (NoHeader(xs) ==> Group(xs + [f]) == [])
    && (!NoHeader(xs) ==>
      var g := Group(xs);
      g != [] && Group(xs + [f]) == g[..|g| - 1] + [AddFix(g[|g| - 1], f.fix)])
  }

  /** A fix line goes to the last STAR, or nowhere before the first header. */
  lemma {:induction false} GroupSnocFix(xs: seq<Item>, f: Item)
    requires f.Fix?
    ensures SnocFixGroups(xs, f)
    decreases |xs|, 2
  {
    var ys := xs + [f];
    if xs == [] {
      assert ys[1..] == [];
    } else if xs[0].Fix? {
      assert ys[0] == xs[0] && ys[1..] == xs[1..] + [f];
      GroupSnocFix(xs[1..], f);
      assert NoHeader(xs) <==> NoHeader(xs[1..]) by {
        assert forall k | 1 <= k < |xs| :: xs[k] == xs[1..][k - 1];
      }
    } else {
      GroupSnocFixAtHeader(xs, f);
    }
  }

  lemma {:induction false} GroupSnocFixAtHeader(xs: seq<Item>, f: Item)
    requires f.Fix? && xs != [] && xs[0].Header?
    ensures SnocFixGroups(xs, f)
    decreases |xs|, 1
  {
    assert !NoHeader(xs);
    var rest := xs[1..];
    if NoHeader(rest) {
      GroupSnocFixFirstStar(xs, f);
    } else {
      var later := rest[FixRun(rest)..];
      LaterStarTail(rest, f);
      GroupSnocFix(later, f);
      GroupSnocFixLaterStar(xs, f);
    }
  }

  lemma {:induction false} GroupSnocFixFirstStar(xs: seq<Item>, f: Item)
    requires f.Fix? && xs != [] && xs[0].Header? && NoHeader(xs[1..])
    ensures var head := Star(xs[0].id, xs[0].elevation, LeadingFixes(xs[1..]));
      Group(xs) == [head] && Group(xs + [f]) == [AddFix(head, f.fix)]
  {
    var rest := xs[1..];
    FixesThenFix(rest, f);
    GroupAtHeader(xs);
    GroupSnocAtHeader(xs, f);
    assert rest[|rest|..] == [] && (rest + [f])[|rest| + 1..] == [];
  }

  lemma {:induction false} FixesThenFix(rest: seq<Item>, f: Item)
    requires f.Fix? && NoHeader(rest)
    ensures FixRun(rest) == |rest|
    ensures FixRun(rest + [f]) == |rest| + 1 && LeadingFixes(rest + [f]) == LeadingFixes(rest) + [f.fix]
  {
    FixRunAppendFixes(rest, [f]);
    assert FixRun([f]) == 1 && LeadingFixes([f]) == [f.fix] by {
      assert [f][1..] == [];
    }
  }

  lemma {:induction false} GroupSnocFixLaterStar(xs: seq<Item>, f: Item)
    requires f.Fix? && xs != [] && xs[0].Header? && !NoHeader(xs[1..])
    requires var later := xs[1..][FixRun(xs[1..])..];
      !NoHeader(later) && SnocFixGroups(later, f)
    ensures var g := Group(xs);
      g != [] && Group(xs + [f]) == g[..|g| - 1] + [AddFix(g[|g| - 1], f.fix)]
  {
    var rest := xs[1..];
    var later := rest[FixRun(rest)..];
    var head := Star(xs[0].id, xs[0].elevation, LeadingFixes(rest));
    GroupSnocLaterStar(xs, f);
    GroupAtHeader(xs);
    SnocLast(Group(xs), Group(xs + [f]), head, Group(later), Group(later + [f]), f.fix);
  }

  /** A line after a later STAR leaves the first STAR as it is. */
  lemma {:induction false} GroupSnocLaterStar(xs: seq<Item>, f: Item)
    requires xs != [] && xs[0].Header? && !NoHeader(xs[1..])
    ensures var rest := xs[1..];
      Group(xs + [f]) == [Star(xs[0].id, xs[0].elevation, LeadingFixes(rest))] + Group(rest[FixRun(rest)..] + [f])
  {
    var rest := xs[1..];
    FixRunAppendHeader(rest, [f]);
    LaterStarTail(rest, f);
    GroupSnocAtHeader(xs, f);
  }

  /** The fix goes to the last STAR of the later ones, which is the last STAR overall. */
  lemma {:induction false} SnocLast(whole: seq<Star>, whole2: seq<Star>, head: Star, g: seq<Star>, g2: seq<Star>, fix: StarFix)
    requires whole == [head] + g && whole2 == [head] + g2
    requires g != [] && g2 == g[..|g| - 1] + [AddFix(g[|g| - 1], fix)]
    ensures whole != [] && whole2 == whole[..|whole| - 1] + [AddFix(whole[|whole| - 1], fix)]
  {
    assert whole[..|whole| - 1] == [head] + g[..|g| - 1];
  }

  /** A header line with one more line after its STAR's lines. */
  lemma {:induction false} GroupSnocAtHeader(xs: seq<Item>, f: Item)
    requires xs != [] && xs[0].Header?
    ensures var rest := xs[1..] + [f];
      Group(xs + [f]) == [Star(xs[0].id, xs[0].elevation, LeadingFixes(rest))] + Group(rest[FixRun(rest)..])
  {
    assert (xs + [f])[1..] == xs[1..] + [f];
    GroupAtHeader(xs + [f]);
  }

  /** A header line opens a STAR holding the fixes up to the next header. */
  lemma {:induction false} GroupAtHeader(xs: seq<Item>)
    requires xs != [] && xs[0].Header?
    ensures Group(xs) == [Star(xs[0].id, xs[0].elevation, LeadingFixes(xs[1..]))] + Group(xs[1..][FixRun(xs[1..])..])
  {
  }

  lemma {:induction false} LaterStarTail(rest: seq<Item>, f: Item)
    requires !NoHeader(rest)
    ensures var n := FixRun(rest);
      (rest + [f])[n..] == rest[n..] + [f] && !NoHeader(rest[n..])
  {
    var n := FixRun(rest);
    assert rest[n..][0].Header?;
  }

  /** The header lines, in order. */
  function HeaderItems(items: seq<Item>): (r: seq<Item>)
    ensures forall k | 0 <= k < |r| :: r[k].Header?
  {
    if items == [] then []
    else (if items[0].Header? then [items[0]] else []) + HeaderItems(items[1..])
  }

  lemma {:induction false} HeaderItemsSkipFixes(items: seq<Item>, n: nat)
    requires n <= |items| && NoHeader(items[..n])
    ensures HeaderItems(items) == HeaderItems(items[n..])
  {
    if n > 0 {
      assert items[..n][0] == items[0];
      assert items[1..][..n - 1] == items[..n][1..];
      assert items[1..][n - 1..] == items[n..];
      HeaderItemsSkipFixes(items[1..], n - 1);
    }
  }

  /**
   * There is one STAR per header line, in file order, carrying that header's
   * id and elevation.
   */
  lemma {:induction false} GroupFollowsHeaders(items: seq<Item>)
    ensures |Group(items)| == |HeaderItems(items)|
    ensures forall k | 0 <= k < |Group(items)| ::
      Group(items)[k].id == HeaderItems(items)[k].id
      && Group(items)[k].airfieldElevationFt == HeaderItems(items)[k].elevation
  {
    if items != [] {
      if items[0].Fix? {
        GroupFollowsHeaders(items[1..]);
      } else {
        var rest := items[1..];
        var n := FixRun(rest);
        HeaderItemsSkipFixes(rest, n);
        GroupFollowsHeaders(rest[n..]);
      }
    }
  }

  /** Fix lines before the first header change nothing. */
  lemma {:induction false} GroupSkipsLeadingFixes(pre: seq<Item>, items: seq<Item>)
    requires NoHeader(pre)
    ensures Group(pre + items) == Group(items)
  {
    if pre != [] {
      assert (pre + items)[1..] == pre[1..] + items;
      GroupSkipsLeadingFixes(pre[1..], items);
    } else {
      assert pre + items == items;
    }
  }

  // ---------------------------------------------------------------------
  // parseStars
  // ---------------------------------------------------------------------

  /** What `parseStars` returns for a file, or the exception it throws. */
  function Stars(input: string): Parsed<seq<Star>>
  {
    match ParseAll(Lines(input), ParseLine)
    case Failed(e) => Failed(e)
    case Ok(items) => Ok(Group(items))
  }

  /**
   * The file is rejected exactly when one of its non-blank lines does not
   * parse, and the error is that of the first such line.
   */
  lemma {:induction false} StarsFailure(input: string)
    ensures Stars(input).Failed? <==> exists k | 0 <= k < |Lines(input)| :: ParseLine(Lines(input)[k]).Failed?
    ensures Stars(input).Failed? ==>
      exists k | 0 <= k < |Lines(input)| ::
        ParseLine(Lines(input)[k]) == Failed(Stars(input).error)
        && forall j | 0 <= j < k :: ParseLine(Lines(input)[j]).Ok?
  {
    ParseAllSpec(Lines(input), ParseLine);
  }

  /** The STAR being read, as `flushCurrentStar` would store it: only when both id and elevation are set. */
  function Open(currentId: Option<string>, currentElevation: Option<int>, currentFixes: seq<StarFix>): seq<Star>
  {
    if currentId.Some? && currentElevation.Some? then [Star(currentId.value, currentElevation.value, currentFixes)] else []
  }

  /** The fix-line branch of the loop (lines 52-78), with its loop over the constraints. */
  method ParseFixLine(line: string) returns (r: Parsed<StarFix>)
    ensures r == FixLine(line)
  {
    var fields := FixLineFields(line);
    if fields.None? {
      return Failed(InvalidFixLine(line));
    }
    var (fixId, constraintText) := fields.value;
    var constraints := ConstraintTexts(constraintText);
    var calls := ParseEach(constraints, ParseConstraint);
    if calls.Failed? {
      return Failed(calls.error);
    }
    return Ok(StarFix(fixId, calls.value));
  }

  /** The invariant of the loop of `parseStars`: the STARs so far, flushed, are those the lines read so far describe. */
  predicate Reading(items: seq<Item>, stars: seq<Star>,
                    currentId: Option<string>, currentElevation: Option<int>, currentFixes: seq<StarFix>)
  {
    && currentId.Some? == currentElevation.Some?
    && (currentId.None? <==> NoHeader(items))
    && Group(items) == stars + Open(currentId, currentElevation, currentFixes)
  }

  /** A header line flushes the STAR being read and opens a new one. */
  lemma {:induction false} ReadHeader(items: seq<Item>, stars: seq<Star>,
                   currentId: Option<string>, currentElevation: Option<int>, currentFixes: seq<StarFix>,
                   id: string, elevation: int)
    requires Reading(items, stars, currentId, currentElevation, currentFixes)
    ensures Reading(items + [Header(id, elevation)], stars + Open(currentId, currentElevation, currentFixes),
                    Some(id), Some(elevation), [])
  {
    GroupSnocHeader(items, Header(id, elevation));
    assert (items + [Header(id, elevation)])[|items|].Header?;
  }

  /** A fix line joins the STAR being read, or is dropped before the first header. */
  lemma {:induction false} ReadFix(items: seq<Item>, stars: seq<Star>,
                currentId: Option<string>, currentElevation: Option<int>, currentFixes: seq<StarFix>,
                fix: StarFix)
    requires Reading(items, stars, currentId, currentElevation, currentFixes)
    ensures Reading(items + [Fix(fix)], stars, currentId, currentElevation, currentFixes + [fix])
  {
    var ys := items + [Fix(fix)];
    GroupSnocFix(items, Fix(fix));
    assert NoHeader(ys) <==> NoHeader(items) by {
      assert forall k | 0 <= k < |items| :: ys[k] == items[k];
    }
    if currentId.None? {
      GroupNoHeader(items);
    } else {
      var g := Group(items);
      assert g[..|g| - 1] == stars && g[|g| - 1] == Open(currentId, currentElevation, currentFixes)[0];
    }
  }

  /** One turn of the loop of `parseStars` on a header line. */
  lemma {:induction false} HeaderLineStep(lines: seq<string>, i: nat, items: seq<Item>, stars: seq<Star>,
                       currentId: Option<string>, currentElevation: Option<int>, currentFixes: seq<StarFix>)
    requires i < |lines| && Strings.StartsWith(lines[i], "STAR")
    requires ParseAll(lines[..i], ParseLine) == Ok(items)
    requires Reading(items, stars, currentId, currentElevation, currentFixes)
    ensures ParseHeader(lines[i]).Failed? ==> ParseAll(lines, ParseLine) == Failed(ParseHeader(lines[i]).error)
    ensures ParseHeader(lines[i]).Ok? ==>
      var item := Header(ParseHeader(lines[i]).value.0, ParseHeader(lines[i]).value.1);
      && ParseAll(lines[..i + 1], ParseLine) == Ok(items + [item])
      && Reading(items + [item], stars + Open(currentId, currentElevation, currentFixes),
                 Some(item.id), Some(item.elevation), [])
  {
    ParseAllStep(lines, i, ParseLine);
    if ParseHeader(lines[i]).Failed? {
      ParseAllFailedPrefix(lines, i + 1, ParseLine);
    } else {
      var (id, elevation) := ParseHeader(lines[i]).value;
      ReadHeader(items, stars, currentId, currentElevation, currentFixes, id, elevation);
    }
  }

  /** One turn of the loop of `parseStars` on a fix line. */
  lemma {:induction false} FixLineStep(lines: seq<string>, i: nat, items: seq<Item>, stars: seq<Star>,
                    currentId: Option<string>, currentElevation: Option<int>, currentFixes: seq<StarFix>)
    requires i < |lines| && !Strings.StartsWith(lines[i], "STAR")
    requires ParseAll(lines[..i], ParseLine) == Ok(items)
    requires Reading(items, stars, currentId, currentElevation, currentFixes)
    ensures FixLine(lines[i]).Failed? ==> ParseAll(lines, ParseLine) == Failed(FixLine(lines[i]).error)
    ensures FixLine(lines[i]).Ok? ==>
      var fix := FixLine(lines[i]).value;
      && ParseAll(lines[..i + 1], ParseLine) == Ok(items + [Fix(fix)])
      && Reading(items + [Fix(fix)], stars, currentId, currentElevation, currentFixes + [fix])
  {
    ParseAllStep(lines, i, ParseLine);
    if FixLine(lines[i]).Failed? {
      ParseAllFailedPrefix(lines, i + 1, ParseLine);
    } else {
      ReadFix(items, stars, currentId, currentElevation, currentFixes, FixLine(lines[i]).value);
    }
  }

  /** `parseStars` (lines 20-84). */
  method ParseStars(input: string) returns (r: Parsed<seq<Star>>)
    ensures r == Stars(input)
  {
    var lines := Lines(input);
    var stars: seq<Star> := [];
    var currentId: Option<string> := None;
    var currentElevation: Option<int> := None;
    var currentFixes: seq<StarFix> := [];
    ghost var items: seq<Item> := [];
    var i := 0;
    while i < |lines|
      invariant 0 <= i <= |lines|
      invariant ParseAll(lines[..i], ParseLine) == Ok(items)
      invariant Reading(items, stars, currentId, currentElevation, currentFixes)
    {
      var line := lines[i];
      if Strings.StartsWith(line, "STAR") {
        HeaderLineStep(lines, i, items, stars, currentId, currentElevation, currentFixes);
        // flushCurrentStar
        stars := stars + Open(currentId, currentElevation, currentFixes);
        currentId, currentElevation, currentFixes := None, None, [];
        var header := ParseHeader(line);
        if header.Failed? {
          return Failed(header.error);
        }
        currentId, currentElevation := Some(header.value.0), Some(header.value.1);
        items := items + [Header(header.value.0, header.value.1)];
      } else {
        FixLineStep(lines, i, items, stars, currentId, currentElevation, currentFixes);
        var fix := ParseFixLine(line);
        if fix.Failed? {
          return Failed(fix.error);
        }
        currentFixes := currentFixes + [fix.value];
        items := items + [Fix(fix.value)];
      }
      i := i + 1;
    }
    assert lines[..i] == lines;
    // flushCurrentStar
    stars := stars + Open(currentId, currentElevation, currentFixes);
    return Ok(stars);
  }

  // ---------------------------------------------------------------------
  // Writing a file and reading it back
  // ---------------------------------------------------------------------

  /** The STARs a file can express: word ids, an elevation that fits an `Int`, writable fixes. */
  predicate WritableStar(star: Star)
  {
    IsWord(star.id) && 0 <= star.airfieldElevationFt <= IntMax
    && forall k | 0 <= k < |star.fixes| :: WritableFix(star.fixes[k])
  }

  function FixLines(fixes: seq<StarFix>): (r: seq<string>)
    requires forall k | 0 <= k < |fixes| :: WritableFix(fixes[k])
    ensures |r| == |fixes|
  {
    seq(|fixes|, k requires 0 <= k < |fixes| => FixLineText(fixes[k]))
  }

  /** A STAR written out: its header line, then one line per fix. */
  function StarLines(star: Star, icao: string, runway: string): (r: seq<string>)
    requires WritableStar(star)
  {
    [HeaderLine(star.id, star.airfieldElevationFt, icao, runway)] + FixLines(star.fixes)
  }

  function FileLines(stars: seq<Star>, icao: string, runway: string): seq<string>
    requires forall k | 0 <= k < |stars| :: WritableStar(stars[k])
  {
    if stars == [] then [] else StarLines(stars[0], icao, runway) + FileLines(stars[1..], icao, runway)
  }

  /** A STAR file for one airport and runway, one line per header or fix. */
  function FileText(stars: seq<Star>, icao: string, runway: string): string
    requires forall k | 0 <= k < |stars| :: WritableStar(stars[k])
  {
    Strings.Join(FileLines(stars, icao, runway), "\n")
  }

  function FixItems(fixes: seq<StarFix>): (r: seq<Item>)
    ensures |r| == |fixes| && NoHeader(r)
  {
    seq(|fixes|, k requires 0 <= k < |fixes| => Fix(fixes[k]))
  }

  function StarItems(star: Star): seq<Item>
  {
    [Header(star.id, star.airfieldElevationFt)] + FixItems(star.fixes)
  }

  function FileItems(stars: seq<Star>): seq<Item>
  {
    if stars == [] then [] else StarItems(stars[0]) + FileItems(stars[1..])
  }

  /** Writing STARs and reading the file back gives the same STARs, whatever the airport and runway. */
  lemma {:induction false} StarsRoundTrip(stars: seq<Star>, icao: string, runway: string)
    requires IsWord(icao) && IsWord(runway)
    requires forall k | 0 <= k < |stars| :: WritableStar(stars[k])
    ensures Stars(FileText(stars, icao, runway)) == Ok(stars)
  {
    var lines := FileLines(stars, icao, runway);
    FileLinesClean(stars, icao, runway);
    LinesRoundTrip(lines);
    FileLinesParse(stars, icao, runway);
    GroupFileItems(stars);
  }

  predicate CleanLine(line: string)
  {
    line != [] && Strings.Trimmed(line) && Strings.NoneSatisfy(line, IsLineBreak)
  }

  lemma {:induction false} HeaderLineClean(id: string, elevation: nat, icao: string, runway: string)
    requires IsWord(id) && IsWord(icao) && IsWord(runway)
    ensures CleanLine(HeaderLine(id, elevation, icao, runway))
  {
    var digits := Decimal.NatToString(elevation);
    var parts := ["STAR", id, "@" + digits, "ICAO:" + icao, "RWY:" + runway];
    HeaderWords(id, digits, icao, runway);
    var w := Words(HeaderLine(id, elevation, icao, runway));
    assert forall k | 0 <= k < |parts| :: parts[k] == w[k];
    JoinKeepsNone(parts, " ", IsLineBreak);
  }

  lemma {:induction false} FixLineClean(fix: StarFix)
    requires WritableFix(fix)
    ensures CleanLine(FixLineText(fix))
  {
    var body := Strings.Join(ConstraintTextsOf(fix.constraints), ",");
    FixBodyClean(fix.constraints);
    IdBodyClean(fix.id, body);
    assert FixLineText(fix) == fix.id + (": " + body);
  }

  lemma {:induction false} FixBodyClean(calls: seq<(Kind, Constraint)>)
    requires calls != [] && forall k | 0 <= k < |calls| :: 0 <= calls[k].1.value
    ensures var body := Strings.Join(ConstraintTextsOf(calls), ",");
      body != [] && !Strings.IsSpace(body[|body| - 1]) && NoTerminator(body)
  {
    var texts := ConstraintTextsOf(calls);
    var body := Strings.Join(texts, ",");
    ConstraintTextsClean(calls);
    JoinKeepsNone(texts, ",", IsLineTerminator);
    Strings.JoinEnds(texts, ",");
    var last := texts[|texts| - 1];
    assert body[|body| - 1] == last[|last| - 1];
  }

  lemma {:induction false} IdBodyClean(id: string, body: string)
    requires IsWord(id) && body != [] && !Strings.IsSpace(body[|body| - 1]) && NoTerminator(body)
    ensures CleanLine(id + (": " + body))
  {
    var line := id + (": " + body);
    assert line[0] == id[0] && line[|line| - 1] == body[|body| - 1];
    forall i | 0 <= i < |line| ensures !IsLineBreak(line[i]) {
      if i >= |id| + 2 {
        assert line[i] == body[i - |id| - 2];
      } else if i < |id| {
        assert line[i] == id[i];
      }
    }
  }

  lemma {:induction false} CleanAppend(a: seq<string>, b: seq<string>)
    requires forall k | 0 <= k < |a| :: CleanLine(a[k])
    requires forall k | 0 <= k < |b| :: CleanLine(b[k])
    ensures forall k | 0 <= k < |a + b| :: CleanLine((a + b)[k])
  {
    forall k | 0 <= k < |a + b| ensures CleanLine((a + b)[k]) {
      if k < |a| {
        assert (a + b)[k] == a[k];
      } else {
        assert (a + b)[k] == b[k - |a|];
      }
    }
  }

  lemma {:induction false} FileLinesClean(stars: seq<Star>, icao: string, runway: string)
    requires IsWord(icao) && IsWord(runway)
    requires forall k | 0 <= k < |stars| :: WritableStar(stars[k])
    ensures forall k | 0 <= k < |FileLines(stars, icao, runway)| :: CleanLine(FileLines(stars, icao, runway)[k])
  {
    if stars != [] {
      var star := stars[0];
      FileLinesClean(stars[1..], icao, runway);
      HeaderLineClean(star.id, star.airfieldElevationFt, icao, runway);
      forall k | 0 <= k < |star.fixes| ensures CleanLine(FixLines(star.fixes)[k]) {
        FixLineClean(star.fixes[k]);
      }
      var a := StarLines(star, icao, runway);
      var b := FileLines(stars[1..], icao, runway);
      forall k | 0 <= k < |a| ensures CleanLine(a[k]) {
        if k > 0 {
          assert a[k] == FixLines(star.fixes)[k - 1];
        }
      }
      CleanAppend(a, b);
    }
  }

  lemma {:induction false} StarLinesParse(star: Star, icao: string, runway: string)
    requires IsWord(icao) && IsWord(runway) && WritableStar(star)
    ensures ParseAll(StarLines(star, icao, runway), ParseLine) == Ok(StarItems(star))
  {
    var header := HeaderLine(star.id, star.airfieldElevationFt, icao, runway);
    HeaderLineParses(star, icao, runway);
    ParseAllOk([header], [Header(star.id, star.airfieldElevationFt)], ParseLine);
    FixLinesParse(star.fixes);
    ParseAllOk(FixLines(star.fixes), FixItems(star.fixes), ParseLine);
    ParseAllAppend([header], FixLines(star.fixes), ParseLine);
  }

  /** A STAR's header line reads back as its header. */
  lemma {:induction false} HeaderLineParses(star: Star, icao: string, runway: string)
    requires IsWord(icao) && IsWord(runway) && WritableStar(star)
    ensures ParseLine(HeaderLine(star.id, star.airfieldElevationFt, icao, runway)) == Ok(Header(star.id, star.airfieldElevationFt))
  {
    var header := HeaderLine(star.id, star.airfieldElevationFt, icao, runway);
    HeaderRoundTrip(star.id, star.airfieldElevationFt, icao, runway);
    assert Strings.StartsWith(header, "STAR") by {
      Strings.JoinEnds(["STAR", star.id, "@" + Decimal.NatToString(star.airfieldElevationFt),
                        "ICAO:" + icao, "RWY:" + runway], " ");
    }
  }

  /** Every fix line reads back as its fix. */
  lemma {:induction false} FixLinesParse(fixes: seq<StarFix>)
    requires forall k | 0 <= k < |fixes| :: WritableFix(fixes[k])
    ensures forall k | 0 <= k < |fixes| :: ParseLine(FixLines(fixes)[k]) == Ok(FixItems(fixes)[k])
  {
    forall k | 0 <= k < |fixes| ensures ParseLine(FixLines(fixes)[k]) == Ok(FixItems(fixes)[k]) {
      FixLineRoundTrip(fixes[k]);
    }
  }

  lemma {:induction false} FileLinesParse(stars: seq<Star>, icao: string, runway: string)
    requires IsWord(icao) && IsWord(runway)
    requires forall k | 0 <= k < |stars| :: WritableStar(stars[k])
    ensures ParseAll(FileLines(stars, icao, runway), ParseLine) == Ok(FileItems(stars))
  {
    if stars != [] {
      StarLinesParse(stars[0], icao, runway);
      FileLinesParse(stars[1..], icao, runway);
      ParseAllAppend(StarLines(stars[0], icao, runway), FileLines(stars[1..], icao, runway), ParseLine);
    }
  }

  lemma {:induction false} LeadingFixesOfFixItems(fixes: seq<StarFix>)
    ensures FixRun(FixItems(fixes)) == |fixes| && LeadingFixes(FixItems(fixes)) == fixes
  {
    if fixes != [] {
      LeadingFixesOfFixItems(fixes[1..]);
      assert FixItems(fixes)[1..] == FixItems(fixes[1..]);
      assert fixes == [fixes[0]] + fixes[1..];
    }
  }

  /** The lines of written STARs group back into the same STARs. */
  lemma {:induction false} GroupFileItems(stars: seq<Star>)
    ensures Group(FileItems(stars)) == stars
  {
    if stars != [] {
      var star := stars[0];
      var fixItems := FixItems(star.fixes);
      var later := FileItems(stars[1..]);
      var items := FileItems(stars);
      assert items == [Header(star.id, star.airfieldElevationFt)] + (fixItems + later);
      assert items[1..] == fixItems + later;
      GroupAtHeader(items);
      FixesBeforeLater(star.fixes, stars[1..]);
      GroupFileItems(stars[1..]);
    }
  }

  /** The fix lines of a written STAR run up to the next STAR's header. */
  lemma {:induction false} FixesBeforeLater(fixes: seq<StarFix>, stars: seq<Star>)
    ensures var fixItems, later := FixItems(fixes), FileItems(stars);
      && FixRun(fixItems + later) == |fixItems|
      && LeadingFixes(fixItems + later) == fixes
      && (fixItems + later)[|fixItems|..] == later
  {
    var fixItems, later := FixItems(fixes), FileItems(stars);
    LeadingFixesOfFixItems(fixes);
    FixRunAppend(fixItems, later);
    assert FixRun(later) == 0 && LeadingFixes(later) == [] by {
      if stars != [] {
        assert later[0].Header?;
      }
    }
    assert fixes + [] == fixes;
    assert (fixItems + later)[|fixItems|..] == later;
  }
}
