/** The launch-flag scanner: a substring search that jumps over rejected matches, and the token list
    it is meant to agree with. */
module LaunchFlags {
  import opened Text
  import Decimal
  import Words

  const PAUSE_ON_ACTIVATE_FLAG := "-rdb_pause_on_activate"
  const ALLOW_REMOTE_FLAG := "-rdb_allow_remote"
  const MAX_INT := 0x7fff_ffff

  predicate IsBoundary(c: char) {
    c == '\0' || c == ' ' || c == '\t' || c == '\r' || c == '\n'
  }

  lemma BoundariesListed(c: char)
    ensures IsBoundary(c) <==> c in "\0 \t\r\n"
  {
    var listed := "\0 \t\r\n";
    assert listed[0] == '\0' && listed[1] == ' ' && listed[2] == '\t' && listed[3] == '\r' && listed[4] == '\n';
  }

  // ---------- the reference: boundary-separated tokens ----------

  predicate NoBoundary(s: string) {
    forall i :: 0 <= i < |s| ==> !IsBoundary(s[i])
  }

  function Tokens(line: string): seq<string> {
    Words.Split(line, IsBoundary)
  }

  // ---------- occurrences ----------

  predicate At(line: string, flag: string, p: nat) {
    p + |flag| <= |line| && line[p..p + |flag|] == flag
  }

  /** The occurrence test of the scanner: both neighbours are boundaries. */
  predicate Bounded(line: string, flag: string, p: nat)
    requires p + |flag| <= |line|
  {
    && (p == 0 || IsBoundary(line[p - 1]))
    && (p + |flag| >= |line| || IsBoundary(line[p + |flag|]))
  }

  predicate Hit(line: string, flag: string, p: nat) {
    At(line, flag, p) && Bounded(line, flag, p)
  }

  /** std::string::find: the first occurrence at or after `from`. */
  function Find(line: string, flag: string, from: nat): (r: Option<nat>)
    ensures r.Some? ==> from <= r.value && At(line, flag, r.value)
    decreases |line| - from
  {
    if from + |flag| > |line| then None
    else if At(line, flag, from) then Some(from)
    else Find(line, flag, from + 1)
  }

  lemma {:induction false} FindIsFirst(line: string, flag: string, from: nat, q: nat)
    requires from <= q && (Find(line, flag, from).Some? ==> q < Find(line, flag, from).value)
    ensures !At(line, flag, q)
    decreases |line| - from
  {
    if from + |flag| <= |line| && from < q {
      FindIsFirst(line, flag, from + 1, q);
    }
  }

  lemma CutAt(line: string, flag: string, p: nat)
    requires At(line, flag, p)
    ensures line == line[..p] + (flag + line[p + |flag|..])
  {
    assert line == line[..p] + (line[p..p + |flag|] + line[p + |flag|..]);
  }

  lemma TokensAround(front: string, flag: string, rest: string)
    requires flag != [] && NoBoundary(flag)
    requires front == [] || IsBoundary(front[|front| - 1])
    requires rest == [] || IsBoundary(rest[0])
    ensures Tokens(front + (flag + rest)) == Tokens(front) + [flag] + Tokens(rest)
  {
    Words.SplitAppend(front, flag + rest, IsBoundary);
    Words.SplitAppend(flag, rest, IsBoundary);
    Words.SplitWord(flag, IsBoundary);
    assert Tokens(front) + ([flag] + Tokens(rest)) == Tokens(front) + [flag] + Tokens(rest);
  }

  lemma HitSplitsTokens(line: string, flag: string, p: nat)
    requires flag != [] && NoBoundary(flag) && Hit(line, flag, p)
    ensures Tokens(line) == Tokens(line[..p]) + [flag] + Tokens(line[p + |flag|..])
  {
    CutAt(line, flag, p);
    TokensAround(line[..p], flag, line[p + |flag|..]);
  }

  lemma HitAfterShift(line: string, flag: string, n: nat, p: nat)
    requires n <= |line| && Hit(line[n..], flag, p)
    requires p == 0 ==> n > 0 && IsBoundary(line[n - 1])
    ensures Hit(line, flag, p + n)
  {
    assert line[p + n..p + n + |flag|] == line[n..][p..p + |flag|];
  }

  /** A token is a hit. */
  lemma {:induction false} TokenIsHit(line: string, flag: string, k: nat)
    requires k < |Tokens(line)| && Tokens(line)[k] == flag
    ensures flag != [] && NoBoundary(flag) && exists p: nat :: Hit(line, flag, p)
    decreases |line|
  {
    if IsBoundary(line[0]) {
      TokenIsHit(line[1..], flag, k);
      var p: nat :| Hit(line[1..], flag, p);
      HitAfterShift(line, flag, 1, p);
    } else {
      var n := Words.WordLength(line, IsBoundary);
      if k == 0 {
        assert Hit(line, flag, 0);
      } else {
        TokenIsHit(line[n..], flag, k - 1);
        var p: nat :| Hit(line[n..], flag, p);
        HitAfterShift(line, flag, n, p);
      }
    }
  }

  /** Shifted by d, the flag fits onto itself with a boundary in front. */
  predicate FitsAt(flag: string, d: nat) {
    0 < d < |flag| && flag[d..] == flag[..|flag| - d] && IsBoundary(flag[d - 1])
  }

  ghost predicate OverlapsItself(flag: string) {
    exists d: nat :: FitsAt(flag, d)
  }

  lemma NoBoundaryNoOverlap(flag: string)
    requires NoBoundary(flag)
    ensures !OverlapsItself(flag)
  {
  }

  lemma HiddenHitFits(line: string, flag: string, p: nat, q: nat)
    requires At(line, flag, p) && p < q < p + |flag|
    ensures Hit(line, flag, q) ==> FitsAt(flag, q - p)
  {
    if Hit(line, flag, q) {
      var d, n := q - p, |flag|;
      assert flag[d..] == line[p..p + n][d..] == line[q..p + n];
      assert flag[..n - d] == line[q..q + n][..n - d] == line[q..p + n];
      assert flag[d - 1] == line[p..p + n][d - 1] == line[q - 1];
    }
  }

  /** A rejected match cannot hide a hit that starts inside it. */
  lemma JumpLosesNothing(line: string, flag: string, p: nat, q: nat)
    requires !OverlapsItself(flag) && At(line, flag, p) && p < q < p + |flag|
    ensures !Hit(line, flag, q)
  {
    HiddenHitFits(line, flag, p, q);
  }

  ghost predicate NoHitBefore(line: string, flag: string, pos: nat) {
    forall q: nat :: q < pos ==> !Hit(line, flag, q)
  }

  lemma NoHitBeforeFound(line: string, flag: string, pos: nat)
    requires NoHitBefore(line, flag, pos)
    ensures match Find(line, flag, pos)
            case Some(p) => NoHitBefore(line, flag, p)
            case None => forall q: nat :: !Hit(line, flag, q)
  {
    forall q: nat | Find(line, flag, pos).Some? ==> q < Find(line, flag, pos).value ensures !Hit(line, flag, q) {
      if pos <= q {
        FindIsFirst(line, flag, pos, q);
      }
    }
  }

  lemma NoHitMeansNoToken(line: string, flag: string, pos: nat)
    requires Find(line, flag, pos).None? && NoHitBefore(line, flag, pos)
    ensures flag !in Tokens(line)
  {
    if flag in Tokens(line) {
      var k :| 0 <= k < |Tokens(line)| && Tokens(line)[k] == flag;
      TokenIsHit(line, flag, k);
      NoHitBeforeFound(line, flag, pos);
    }
  }

  lemma RejectedMatch(line: string, flag: string, pos: nat, p: nat)
    requires !OverlapsItself(flag) && NoHitBefore(line, flag, pos)
    requires Find(line, flag, pos) == Some(p) && !Bounded(line, flag, p)
    ensures NoHitBefore(line, flag, p + |flag|)
  {
    NoHitBeforeFound(line, flag, pos);
    forall q: nat | q < p + |flag| ensures !Hit(line, flag, q) {
      if p < q {
        JumpLosesNothing(line, flag, p, q);
      }
    }
  }

  /** The first hit is the first token equal to the flag. */
  lemma FirstHit(line: string, flag: string, p: nat)
    requires flag != [] && NoBoundary(flag) && Hit(line, flag, p) && NoHitBefore(line, flag, p)
    ensures Tokens(line) == Tokens(line[..p]) + [flag] + Tokens(line[p + |flag|..])
    ensures flag !in Tokens(line[..p])
  {
    HitSplitsTokens(line, flag, p);
    if flag in Tokens(line[..p]) {
      var k :| 0 <= k < |Tokens(line[..p])| && Tokens(line[..p])[k] == flag;
      TokenIsHit(line[..p], flag, k);
      var q: nat :| Hit(line[..p], flag, q);
      assert line[q..q + |flag|] == line[..p][q..q + |flag|];
      assert line[q + |flag| - 1] == line[q..q + |flag|][|flag| - 1];
      assert Hit(line, flag, q);
    }
  }

  // ---------- HasLaunchFlag ----------

  /** What the scan answers from a position on. */
  predicate Scan(line: string, flag: string, pos: nat)
    requires flag != []
    decreases |line| - pos
  {
    var hit := Find(line, flag, pos);
    hit.Some? && (Bounded(line, flag, hit.value) || Scan(line, flag, hit.value + |flag|))
  }

  method RunScan(line: string, flag: string) returns (found: bool)
    requires flag != []
    ensures found == Scan(line, flag, 0)
  {
    var pos := 0;
    var hit := Find(line, flag, pos);
    while hit.Some?
      invariant hit == Find(line, flag, pos) && Scan(line, flag, 0) == Scan(line, flag, pos)
      decreases |line| - pos
    {
      var p := hit.value;
      if Bounded(line, flag, p) {
        return true;
      }
      pos := p + |flag|;
      hit := Find(line, flag, pos);
    }
    return false;
  }

  lemma {:induction false} ScanHits(line: string, flag: string, pos: nat)
    requires flag != [] && Scan(line, flag, pos)
    ensures exists p: nat :: Hit(line, flag, p)
    decreases |line| - pos
  {
    var p := Find(line, flag, pos).value;
    if Bounded(line, flag, p) {
      assert Hit(line, flag, p);
    } else {
      ScanHits(line, flag, p + |flag|);
    }
  }

  lemma {:induction false} NoScanNoHit(line: string, flag: string, pos: nat)
    requires flag != [] && !OverlapsItself(flag) && !Scan(line, flag, pos) && NoHitBefore(line, flag, pos)
    ensures forall p: nat :: !Hit(line, flag, p)
    decreases |line| - pos
  {
    var hit := Find(line, flag, pos);
    NoHitBeforeFound(line, flag, pos);
    if hit.Some? {
      RejectedMatch(line, flag, pos, hit.value);
      NoScanNoHit(line, flag, hit.value + |flag|);
    }
  }

  lemma HitsAreTokens(line: string, flag: string)
    requires flag != [] && NoBoundary(flag)
    ensures (exists p: nat :: Hit(line, flag, p)) <==> flag in Tokens(line)
  {
    if p: nat :| Hit(line, flag, p) {
      HitSplitsTokens(line, flag, p);
    }
    if flag in Tokens(line) {
      var k :| 0 <= k < |Tokens(line)| && Tokens(line)[k] == flag;
      TokenIsHit(line, flag, k);
    }
  }

  /** For a flag that does not overlap itself at a boundary the scan finds every hit. */
  lemma ScanFinds(line: string, flag: string)
    requires flag != []
    ensures !OverlapsItself(flag) ==> (Scan(line, flag, 0) <==> exists p: nat :: Hit(line, flag, p))
    ensures NoBoundary(flag) ==> (Scan(line, flag, 0) <==> flag in Tokens(line))
  {
    if Scan(line, flag, 0) {
      ScanHits(line, flag, 0);
    } else if !OverlapsItself(flag) {
      NoScanNoHit(line, flag, 0);
    }
    if NoBoundary(flag) {
      NoBoundaryNoOverlap(flag);
      HitsAreTokens(line, flag);
    }
  }

  /** Main result: for a flag without boundary characters the scanner finds exactly the tokens equal to it,
      since jumping past rejected matches loses nothing. */
  method HasLaunchFlag(line: string, flag: string) returns (found: bool)
    ensures found == (flag != [] && Scan(line, flag, 0))
    ensures NoBoundary(flag) ==> (found <==> flag in Tokens(line))
  {
    if flag == [] {
      return false;
    }
    found := RunScan(line, flag);
    ScanFinds(line, flag);
  }

  /** The same for a flag without boundary characters, as all flags of the module are. */
  method HasOption(line: string, flag: string) returns (found: bool)
    requires NoBoundary(flag)
    ensures found <==> flag in Tokens(line)
  {
    found := HasLaunchFlag(line, flag);
  }

  /** A line in which a rejected match hides a hit of a flag that fits onto itself at d. */
  function Hiding(flag: string, d: nat): string
    requires FitsAt(flag, d)
  {
    [if flag[0] == 'x' then 'y' else 'x'] + flag[..d] + flag
  }

  /** In it the search goes on behind the hit. */
  lemma JumpCanLoseHit(flag: string, d: nat)
    requires FitsAt(flag, d)
    ensures Hit(Hiding(flag, d), flag, 1 + d) && !Scan(Hiding(flag, d), flag, 0)
  {
    var line, n := Hiding(flag, d), |flag|;
    assert line[1 + d..1 + d + n] == flag;
    assert line[d] == flag[d - 1];
    assert line[1..1 + n] == flag[..d] + flag[..n - d] == flag[..d] + flag[d..] == flag;
    assert !At(line, flag, 0) by { assert line[0..n][0] == line[0]; }
    assert Find(line, flag, 0) == Some(1);
    assert Find(line, flag, 1 + n).None?;
  }

  /** The exact condition: the scanner finds the hits of every line if and only if the flag does not
      overlap itself at a boundary. */
  lemma JumpCondition(flag: string)
    requires flag != []
    ensures (forall line :: Scan(line, flag, 0) <==> exists p: nat :: Hit(line, flag, p)) <==> !OverlapsItself(flag)
  {
    if d: nat :| FitsAt(flag, d) {
      JumpCanLoseHit(flag, d);
    } else {
      forall line ensures Scan(line, flag, 0) <==> exists p: nat :: Hit(line, flag, p) {
        ScanFinds(line, flag);
      }
    }
  }

  // ---------- numbers ----------

  predicate IsSign(c: char) {
    c == '-' || c == '+'
  }

  /** The texts strtol reads to their end: white space, an optional sign, then digits. A value outside
      long is also outside int, so only the range of int matters. */
  function ParseNonNegativeInt(text: string): (r: Option<nat>)
    ensures r.Some? ==> r.value <= MAX_INT
  {
    var t := SkipSpaces(CString(text));
    var digits := if t != [] && IsSign(t[0]) then t[1..] else t;
    if digits == [] || !Decimal.AllDigits(digits) then None
    else
      var v := Decimal.Value(digits);
      if v > MAX_INT || (t[0] == '-' && v != 0) then None else Some(v)
  }

  lemma {:induction false} SkipAll(blanks: string, rest: string)
    requires AllSpaces(blanks) && (rest != [] ==> !IsSpace(rest[0]))
    ensures SkipSpaces(blanks + rest) == rest
  {
    if blanks == [] {
      assert blanks + rest == rest;
    } else {
      assert (blanks + rest)[1..] == blanks[1..] + rest;
      SkipAll(blanks[1..], rest);
    }
  }

  predicate IsNumeral(blanks: string, sign: string, digits: string) {
    AllSpaces(blanks) && (sign == "" || sign == "+" || sign == "-") && digits != [] && Decimal.AllDigits(digits)
  }

  lemma NumeralIsCString(blanks: string, sign: string, digits: string)
    requires IsNumeral(blanks, sign, digits)
    ensures CString(blanks + (sign + digits)) == blanks + (sign + digits)
  {
    CStringMeans(blanks + (sign + digits));
  }

  lemma SignedDigits(sign: string, digits: string)
    requires IsNumeral("", sign, digits)
    ensures var t := sign + digits;
            && t != [] && !IsSpace(t[0])
            && (if IsSign(t[0]) then t[1..] else t) == digits && (t[0] == '-' <==> sign == "-")
  {
    var t := sign + digits;
    if sign == "" {
      assert t == digits && IsDigit(digits[0]);
    } else {
      assert t[0] == sign[0] && t[1..] == digits;
    }
  }

  /** White space, at most one sign and digits are read as their value, unless it is negative or too large. */
  lemma ParseAccepts(blanks: string, sign: string, digits: string)
    requires IsNumeral(blanks, sign, digits)
    ensures var v := Decimal.Value(digits);
            ParseNonNegativeInt(blanks + (sign + digits))
            == if v > 2147483647 || (sign == "-" && v != 0) then None else Some(v)
  {
    NumeralIsCString(blanks, sign, digits);
    SignedDigits(sign, digits);
    SkipAll(blanks, sign + digits);
  }

  /** And nothing else is. */
  lemma ParseReadsNumeral(text: string) returns (blanks: string, sign: string, digits: string)
    requires ParseNonNegativeInt(text).Some?
    ensures IsNumeral(blanks, sign, digits) && CString(text) == blanks + (sign + digits)
  {
    blanks := SkipMeans(CString(text));
    var t := SkipSpaces(CString(text));
    sign := if IsSign(t[0]) then [t[0]] else [];
    digits := if IsSign(t[0]) then t[1..] else t;
    assert t == sign + digits;
  }

  /** Every non-negative int is read back from its decimal text. */
  lemma ParseDigits(n: nat)
    requires n <= MAX_INT
    ensures ParseNonNegativeInt(Decimal.Digits(n)) == Some(n)
  {
    Decimal.ValueOfDigits(n);
    assert IsDigit(Decimal.Digits(n)[0]);
    CStringMeans(Decimal.Digits(n));
  }

  /** The white space strtol skips. */
  method SkipBlanks(s: string) returns (t: string)
    ensures t == SkipSpaces(s)
  {
    var start := 0;
    while start < |s| && IsSpace(s[start])
      invariant start <= |s| && SkipSpaces(s) == SkipSpaces(s[start..])
    {
      assert s[start..][1..] == s[start + 1..];
      start := start + 1;
    }
    t := s[start..];
  }

  /** The digits strtol reads, and their value. */
  method ReadDigits(s: string) returns (end: nat, value: nat)
    ensures end <= |s| && Decimal.AllDigits(s[..end]) && value == Decimal.Value(s[..end])
    ensures end < |s| ==> !IsDigit(s[end])
  {
    end, value := 0, 0;
    while end < |s| && IsDigit(s[end])
      invariant end <= |s| && Decimal.AllDigits(s[..end]) && value == Decimal.Value(s[..end])
    {
      assert s[..end + 1][..end] == s[..end];
      value := 10 * value + Decimal.DigitValue(s[end]);
      end := end + 1;
    }
  }

  method TryParseNonNegativeInt(text: string) returns (r: Option<nat>)
    ensures r == ParseNonNegativeInt(text)
  {
    if text == [] {
      return None;
    }
    var t := SkipBlanks(CString(text));
    var digits := if t != [] && IsSign(t[0]) then t[1..] else t;
    var end, value := ReadDigits(digits);
    if end == 0 || end < |digits| {
      return None;
    }
    assert digits[..end] == digits;
    if (t[0] == '-' && value != 0) || value > MAX_INT {
      return None;
    }
    return Some(value);
  }

  // ---------- TryGetLaunchFlagValue ----------

  /** The first token, read as a non-negative int unless it looks like another flag. */
  function FirstValue(tokens: seq<string>): Option<nat> {
    if tokens == [] || (tokens[0] != [] && tokens[0][0] == '-') then None else ParseNonNegativeInt(tokens[0])
  }

  /** The value of the token after the first occurrence of the flag. */
  function ValueAfter(tokens: seq<string>, flag: string): Option<nat> {
    if tokens == [] then None
    else if tokens[0] == flag then FirstValue(tokens[1..])
    else ValueAfter(tokens[1..], flag)
  }

  lemma {:induction false} ValueAfterSplit(before: seq<string>, flag: string, after: seq<string>)
    requires flag !in before
    ensures ValueAfter(before + [flag] + after, flag) == FirstValue(after)
  {
    if before == [] {
      assert (before + [flag] + after)[1..] == after;
    } else {
      assert (before + [flag] + after)[1..] == before[1..] + [flag] + after;
      ValueAfterSplit(before[1..], flag, after);
    }
  }

  lemma {:induction false} NoTokenNoValue(tokens: seq<string>, flag: string)
    requires flag !in tokens
    ensures ValueAfter(tokens, flag).None?
  {
    if tokens != [] {
      NoTokenNoValue(tokens[1..], flag);
    }
  }

  lemma TokensBehindGap(gap: string, rest: string)
    requires Words.IsGap(gap, IsBoundary)
    ensures Tokens(gap + rest) == Tokens(rest)
  {
    Words.SplitGap(gap, IsBoundary);
    assert gap != [] ==> IsBoundary(gap[|gap| - 1]);
    Words.SplitAppend(gap, rest, IsBoundary);
  }

  lemma FirstTokenAt(rest: string, start: nat, end: nat)
    requires start < end <= |rest| && Words.IsGap(rest[..start], IsBoundary)
    requires NoBoundary(rest[start..end]) && (end < |rest| ==> IsBoundary(rest[end]))
    ensures Tokens(rest) != [] && Tokens(rest)[0] == rest[start..end]
  {
    TokensBehindGap(rest[..start], rest[start..]);
    assert rest == rest[..start] + rest[start..];
    assert rest[start..][..end - start] == rest[start..end];
    Words.SplitFront(rest[start..], end - start, IsBoundary);
  }

  /** The part of the scanner that reads the value; `rest` is the line after the flag. */
  method ReadValue(rest: string) returns (r: Option<nat>)
    ensures r == FirstValue(Tokens(rest))
  {
    var start := 0;
    while start < |rest| && IsBoundary(rest[start])
      invariant start <= |rest| && Words.IsGap(rest[..start], IsBoundary)
    {
      start := start + 1;
    }
    if start >= |rest| {
      assert rest[..start] == rest;
      Words.SplitGap(rest, IsBoundary);
      return None;
    }
    if rest[start] == '-' {
      ghost var n := Words.WordLength(rest[start..], IsBoundary);
      assert rest[start..start + n] == rest[start..][..n];
      FirstTokenAt(rest, start, start + n);
      return None;
    }
    var end := start;
    while end < |rest| && !IsBoundary(rest[end])
      invariant start <= end <= |rest| && NoBoundary(rest[start..end])
    {
      assert rest[start..end + 1] == rest[start..end] + [rest[end]];
      end := end + 1;
    }
    FirstTokenAt(rest, start, end);
    r := TryParseNonNegativeInt(rest[start..end]);
  }

  /** Main result: the value is exactly the token after the first token equal to the flag. */
  method TryGetLaunchFlagValue(line: string, flag: string) returns (r: Option<nat>)
    ensures NoBoundary(flag) ==> r == if flag == [] then None else ValueAfter(Tokens(line), flag)
  {
    if flag == [] {
      return None;
    }
    var pos := 0;
    var hit := Find(line, flag, pos);
    while hit.Some?
      invariant hit == Find(line, flag, pos)
      invariant NoBoundary(flag) ==> NoHitBefore(line, flag, pos)
      decreases |line| - pos
    {
      var p := hit.value;
      if Bounded(line, flag, p) {
        if NoBoundary(flag) {
          NoHitBeforeFound(line, flag, pos);
          FirstHit(line, flag, p);
          ValueAfterSplit(Tokens(line[..p]), flag, Tokens(line[p + |flag|..]));
        }
        r := ReadValue(line[p + |flag|..]);
        return;
      }
      if NoBoundary(flag) {
        NoBoundaryNoOverlap(flag);
        RejectedMatch(line, flag, pos, p);
      }
      pos := p + |flag|;
      hit := Find(line, flag, pos);
    }
    if NoBoundary(flag) {
      NoHitMeansNoToken(line, flag, pos);
      NoTokenNoValue(Tokens(line), flag);
    }
    return None;
  }

  // ---------- runtime options ----------

  datatype Options = Options(allowRemote: bool, pauseOnActivate: bool, pauseTimeout: nat)

  function OptionsOf(tokens: seq<string>): Options {
    var pause := PAUSE_ON_ACTIVATE_FLAG in tokens;
    var value := ValueAfter(tokens, PAUSE_ON_ACTIVATE_FLAG);
    Options(ALLOW_REMOTE_FLAG in tokens, pause,
            if !pause then 0 else if value.Some? then value.value else 60)
  }

  /** The flag stands at place k of the token list, and nowhere before. */
  predicate FirstAt(tokens: seq<string>, flag: string, k: nat) {
    k < |tokens| && tokens[k] == flag && flag !in tokens[..k]
  }

  lemma ValueAfterFirst(tokens: seq<string>, flag: string, k: nat)
    requires FirstAt(tokens, flag, k)
    ensures ValueAfter(tokens, flag) == FirstValue(tokens[k + 1..])
  {
    ValueAfterSplit(tokens[..k], flag, tokens[k + 1..]);
    assert tokens[..k] + [flag] + tokens[k + 1..] == tokens;
  }

  /** Main result: each option is set exactly when its flag is a token. The timeout is the number in the token
      after the first pause flag; it is 60 when there is no such token, when that token looks like another
      flag, and when it is no number, and 0 without the flag. */
  lemma OptionsMean(tokens: seq<string>, k: nat)
    ensures OptionsOf(tokens).allowRemote <==> "-rdb_allow_remote" in tokens
    ensures OptionsOf(tokens).pauseOnActivate <==> "-rdb_pause_on_activate" in tokens
    ensures "-rdb_pause_on_activate" !in tokens ==> OptionsOf(tokens).pauseTimeout == 0
    ensures FirstAt(tokens, "-rdb_pause_on_activate", k) ==>
              var timeout := OptionsOf(tokens).pauseTimeout;
              if k + 1 == |tokens| || "-" <= tokens[k + 1] then timeout == 60
              else match ParseNonNegativeInt(tokens[k + 1])
                case None => timeout == 60
                case Some(v) => timeout == v
  {
    if FirstAt(tokens, PAUSE_ON_ACTIVATE_FLAG, k) {
      ValueAfterFirst(tokens, PAUSE_ON_ACTIVATE_FLAG, k);
      assert k + 1 < |tokens| ==> tokens[k + 1..][0] == tokens[k + 1];
    }
  }

  class Runtime {
    var options: Options

    constructor ()
      ensures options == Options(false, false, 0)
    {
      options := Options(false, false, 0);
    }

    /** The command line is None when it cannot be read. */
    method RefreshRuntimeOptions(commandLine: Option<string>)
      modifies this
      ensures options == match commandLine
                case None => Options(false, false, 0)
                case Some(line) => OptionsOf(Tokens(line))
    {
      options := Options(false, false, 0);
      if commandLine.None? {
        return;
      }
      var remote := HasOption(commandLine.value, ALLOW_REMOTE_FLAG);
      var pause := HasOption(commandLine.value, PAUSE_ON_ACTIVATE_FLAG);
      options := options.(allowRemote := remote, pauseOnActivate := pause);
      if pause {
        options := options.(pauseTimeout := 60);
        var value := TryGetLaunchFlagValue(commandLine.value, PAUSE_ON_ACTIVATE_FLAG);
        if value.Some? {
          options := options.(pauseTimeout := value.value);
        }
      }
    }
  }

  // ---------- independence of the separators ----------

  predicate IsToken(w: string) {
    Words.IsWord(w, IsBoundary)
  }

  /** The words written one after another, each followed by its separator. */
  function Render(words: seq<string>, separators: seq<string>): string
    requires |separators| == |words|
  {
    if words == [] then [] else words[0] + separators[0] + Render(words[1..], separators[1..])
  }

  /** Separators between words are not empty; after the last word there need not be one. */
  predicate Separate(separators: seq<string>) {
    forall i :: 0 <= i < |separators| ==>
      Words.IsGap(separators[i], IsBoundary) && (i < |separators| - 1 ==> separators[i] != [])
  }

  lemma OneMoreToken(w: string, g: string, rest: string)
    requires IsToken(w) && Words.IsGap(g, IsBoundary) && (g == [] ==> rest == [])
    ensures Tokens(w + g + rest) == [w] + Tokens(rest)
  {
    Words.SplitWord(w, IsBoundary);
    Words.SplitGap(g, IsBoundary);
    Words.SplitAppend(w, g, IsBoundary);
    assert g != [] ==> (w + g)[|w + g| - 1] == g[|g| - 1];
    Words.SplitAppend(w + g, rest, IsBoundary);
  }

  lemma {:induction false} TokensOfRender(words: seq<string>, separators: seq<string>)
    requires |separators| == |words| && Separate(separators)
    requires forall i :: 0 <= i < |words| ==> IsToken(words[i])
    ensures Tokens(Render(words, separators)) == words
  {
    if words != [] {
      TokensOfRender(words[1..], separators[1..]);
      OneMoreToken(words[0], separators[0], Render(words[1..], separators[1..]));
    }
  }

  /** Main result: whatever boundary characters stand in front of the words, between them and behind them,
      and however many, the token list is the words; so by the contracts above the options depend on
      nothing else. */
  lemma TokensIgnoreSeparators(front: string, words: seq<string>, separators: seq<string>)
    requires |separators| == |words| && Words.IsGap(front, IsBoundary) && Separate(separators)
    requires forall i :: 0 <= i < |words| ==> IsToken(words[i])
    ensures Tokens(front + Render(words, separators)) == words
  {
    TokensOfRender(words, separators);
    TokensBehindGap(front, Render(words, separators));
  }

  lemma RenderMore(w: string, words: seq<string>, g: string, separators: seq<string>)
    requires |separators| == |words| && Separate(separators) && Words.IsGap(g, IsBoundary) && (words != [] ==> g != [])
    ensures Separate([g] + separators)
    ensures Render([w] + words, [g] + separators) == w + (g + Render(words, separators))
  {
    assert ([w] + words)[1..] == words && ([g] + separators)[1..] == separators;
  }

  /** Behind a word either the line ends or a separator stands. */
  lemma FrontOfWords(line: string, front: string, separators: seq<string>)
    requires |separators| == |Tokens(line)| && line == front + Render(Tokens(line), separators)
    requires line != [] ==> IsBoundary(line[0])
    ensures Tokens(line) != [] ==> front != []
  {
    assert Tokens(line) != [] ==> Render(Tokens(line), separators)[0] == Tokens(line)[0][0];
  }

  /** Every line is written this way, so the result above covers them all. */
  lemma {:induction false} EveryLineIsRendered(line: string) returns (front: string, separators: seq<string>)
    ensures |separators| == |Tokens(line)| && Words.IsGap(front, IsBoundary) && Separate(separators)
    ensures line == front + Render(Tokens(line), separators)
    decreases |line|
  {
    front, separators := [], [];
    if line != [] && IsBoundary(line[0]) {
      front, separators := EveryLineIsRendered(line[1..]);
      front := [line[0]] + front;
    } else if line != [] {
      var n := Words.WordLength(line, IsBoundary);
      var g, rest := EveryLineIsRendered(line[n..]);
      FrontOfWords(line[n..], g, rest);
      separators := [g] + rest;
      RenderMore(line[..n], Tokens(line[n..]), g, rest);
      assert line == line[..n] + line[n..];
    }
  }
}
