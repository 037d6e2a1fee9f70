/**
 * The progress extractor (progress.go): `progress(ev)` looks for the leftmost
 * match of the regular expression `Processando ([0-9]+)/([0-9]+)` in the text
 * of a `progress` event and converts both groups with `strconv.Atoi`.
 *
 * The module states the regular expression twice: as the language it
 * denotes (`MatchAt`, `Greedy`, `NoMatchBefore`), and as the search that
 * finds the leftmost match and its groups (`DigitRun`, `PatternAt`,
 * `FindFrom`, `FindSubmatch`). The lemmas connect the two.
 */
module Progress {
  import opened Wrappers
  import opened Events

  /** The literal text in front of the first group. */
  const Keyword: string := "Processando "

  /** The largest value of Go's `int` on a 64-bit platform, and of `uint64`. */
  const MaxInt: int := 0x7fff_ffff_ffff_ffff
  const MaxUint64: int := 0xffff_ffff_ffff_ffff

  predicate IsDigit(c: char) { '0' <= c <= '9' }

  predicate AllDigits(s: string) { forall k :: 0 <= k < |s| ==> IsDigit(s[k]) }

  function DigitValue(c: char): nat
    requires IsDigit(c)
  {
    c as int - '0' as int
  }

  /** The decimal value of a digit string, most significant digit first. */
  function Dec(s: string): nat
    requires AllDigits(s)
    decreases |s|
  {
    if s == [] then 0 else Dec(s[..|s| - 1]) * 10 + DigitValue(s[|s| - 1])
  }

  function Pow10(n: nat): nat
  {
    if n == 0 then 1 else 10 * Pow10(n - 1)
  }

  // ---------------------------------------------------------------------------
  // The regular expression as a language.
  // ---------------------------------------------------------------------------

  /** `s` holds a match of the pattern at `i`, whose groups are `a` and `b`. */
  ghost predicate MatchAt(s: string, i: int, a: string, b: string)
  {
    0 <= i && i + |Keyword| + |a| + 1 + |b| <= |s| &&
    a != [] && b != [] && AllDigits(a) && AllDigits(b) &&
    s[i .. i + |Keyword| + |a| + 1 + |b|] == Keyword + a + "/" + b
  }

  /**
   * The match at `i` that a leftmost-first engine reports: `[0-9]+` is
   * greedy, so the second group is not followed by another digit (the first
   * is followed by '/', so it is maximal already).
   */
  ghost predicate Greedy(s: string, i: int, a: string, b: string)
  {
    MatchAt(s, i, a, b) &&
    var e := i + |Keyword| + |a| + 1 + |b|;
    (e == |s| || !IsDigit(s[e]))
  }

  /** No match of the pattern starts before position `i`. */
  ghost predicate NoMatchBefore(s: string, i: int)
  {
    forall j, a, b :: 0 <= j < i ==> !MatchAt(s, j, a, b)
  }

  // ---------------------------------------------------------------------------
  // The search.
  // ---------------------------------------------------------------------------

  /** The length of the run of digits that starts at `k`, as long as it goes. */
  function DigitRun(s: string, k: nat): (n: nat)
    requires k <= |s|
    ensures k + n <= |s|
    ensures forall m :: k <= m < k + n ==> IsDigit(s[m])
    ensures k + n == |s| || !IsDigit(s[k + n])
    decreases |s| - k
  {
    if k < |s| && IsDigit(s[k]) then 1 + DigitRun(s, k + 1) else 0
  }

  /** The pattern matches at `i`, read off with the greedy digit runs. */
  predicate PatternAt(s: string, i: nat)
  {
    i + |Keyword| <= |s| && s[i .. i + |Keyword|] == Keyword &&
    var d1 := DigitRun(s, i + |Keyword|);
    d1 > 0 && i + |Keyword| + d1 < |s| && s[i + |Keyword| + d1] == '/' &&
    DigitRun(s, i + |Keyword| + d1 + 1) > 0
  }

  /** The first group of the match at `i`. */
  function Group1(s: string, i: nat): string
    requires PatternAt(s, i)
  {
    s[i + |Keyword| .. i + |Keyword| + DigitRun(s, i + |Keyword|)]
  }

  /** The second group of the match at `i`. */
  function Group2(s: string, i: nat): string
    requires PatternAt(s, i)
  {
    var g := i + |Keyword| + DigitRun(s, i + |Keyword|) + 1;
    s[g .. g + DigitRun(s, g)]
  }

  /** The leftmost position at or after `i` where the pattern matches. */
  function FindFrom(s: string, i: nat): (r: Option<nat>)
    requires i <= |s|
    ensures r.Some? ==> i <= r.value <= |s| && PatternAt(s, r.value)
    ensures r.Some? ==> forall j :: i <= j < r.value ==> !PatternAt(s, j)
    ensures r.None? ==> forall j :: i <= j <= |s| ==> !PatternAt(s, j)
    decreases |s| - i
  {
    if PatternAt(s, i) then Some(i)
    else if i == |s| then None
    else FindFrom(s, i + 1)
  }

  /**
   * `regexp.FindSubmatch`: nothing when there is no match, otherwise the
   * whole leftmost match followed by its two groups.
   */
  function FindSubmatch(s: string): seq<string>
  {
    match FindFrom(s, 0)
    case None => []
    case Some(i) => [Keyword + Group1(s, i) + "/" + Group2(s, i), Group1(s, i), Group2(s, i)]
  }

  // ---------------------------------------------------------------------------
  // strconv.Atoi
  // ---------------------------------------------------------------------------

  datatype NumError = ErrSyntax | ErrRange

  /**
   * The digit loop of `strconv.ParseUint(s, 10, 64)` from position `k` with
   * `n` accumulated so far: a non-digit is a syntax error, passing the
   * largest `uint64` is a range error, whichever comes first.
   */
  function ParseUint(s: string, k: nat, n: nat): Result<nat, NumError>
    requires k <= |s|
    decreases |s| - k
  {
    if k == |s| then Success(n)
    else if !IsDigit(s[k]) then Failure(ErrSyntax)
    else
      var n1 := n * 10 + DigitValue(s[k]);
      if n1 > MaxUint64 then Failure(ErrRange) else ParseUint(s, k + 1, n1)
  }

  /**
   * `strconv.Atoi` on a 64-bit platform, which behaves as
   * `strconv.ParseInt(s, 10, 0)`: an optional sign, then decimal digits, the
   * value within the range of `int`. (Its fast path for short strings gives
   * the same results.)
   */
  function Atoi(s: string): Result<int, NumError>
  {
    if s == [] then Failure(ErrSyntax)
    else
      var neg := s[0] == '-';
      var body := if s[0] == '+' || s[0] == '-' then s[1..] else s;
      if body == [] then Failure(ErrSyntax)
      else
        match ParseUint(body, 0, 0)
        case Failure(e) => Failure(e)
        case Success(u) =>
          if !neg && u > MaxInt then Failure(ErrRange)
          else if neg && u > MaxInt + 1 then Failure(ErrRange)
          else
            var v: int := if neg then -(u as int) else u as int;
            Success(v)
  }

  // ---------------------------------------------------------------------------
  // progress(ev)
  // ---------------------------------------------------------------------------

  /** The triple `(processed, found, ok)` that `progress` returns. */
  datatype Reading = Reading(processed: int, found: int, ok: bool)

  const NotFound: Reading := Reading(0, 0, false)

  function Progress(ev: Event): (r: Reading)
    ensures ev.eventType != "progress" ==> r == NotFound
    ensures !r.ok ==> r.processed == 0 && r.found == 0
  {
    if ev.eventType == "progress" then
      var m := FindSubmatch(ev.payload.progress);
      if |m| != 3 then NotFound
      else
        match Atoi(m[1])
        case Failure(_) => NotFound
        case Success(processed) =>
          match Atoi(m[2])
          case Failure(_) => NotFound
          case Success(found) => Reading(processed, found, true)
    else NotFound
  }

  // ---------------------------------------------------------------------------
  // Decimal values
  // ---------------------------------------------------------------------------

  lemma DecSnoc(s: string, c: char)
    requires AllDigits(s) && IsDigit(c)
    ensures AllDigits(s + [c]) && Dec(s + [c]) == Dec(s) * 10 + DigitValue(c)
  {
    assert (s + [c])[..|s|] == s;
  }

  /** A prefix of a digit string never has a larger value. */
  lemma {:induction false} DecPrefixLe(s: string, j: nat)
    requires AllDigits(s) && j <= |s|
    ensures AllDigits(s[..j]) && Dec(s[..j]) <= Dec(s)
    decreases |s|
  {
    if j < |s| {
      var p := s[..|s| - 1];
      assert p[..j] == s[..j];
      DecPrefixLe(p, j);
    } else {
      assert s[..j] == s;
    }
  }

  lemma {:induction false} DecBelowPow10(s: string)
    requires AllDigits(s)
    ensures Dec(s) < Pow10(|s|)
    decreases |s|
  {
    if s != [] {
      DecBelowPow10(s[..|s| - 1]);
    }
  }

  /** A digit string that does not start with 0 has at least its length in digits. */
  lemma {:induction false} DecAtLeastPow10(s: string)
    requires AllDigits(s) && s != [] && s[0] != '0'
    ensures Dec(s) >= Pow10(|s| - 1)
    decreases |s|
  {
    if |s| > 1 {
      var p := s[..|s| - 1];
      assert p[0] == s[0];
      DecAtLeastPow10(p);
    }
  }

  /** Eighteen digits always fit in an `int`. */
  lemma ShortDigitsFit(s: string)
    requires AllDigits(s) && |s| <= 18
    ensures Dec(s) <= MaxInt
  {
    DecBelowPow10(s);
    Pow10Monotone(|s|, 18);
    Pow10Values();
  }

  /** Twenty digits not starting with 0 never fit in an `int`. */
  lemma LongDigitsOverflow(s: string)
    requires AllDigits(s) && |s| >= 20 && s[0] != '0'
    ensures Dec(s) > MaxInt
  {
    DecAtLeastPow10(s);
    Pow10Monotone(19, |s| - 1);
    Pow10Values();
  }

  lemma Pow10Values()
    ensures Pow10(18) == 1_000_000_000_000_000_000
    ensures Pow10(19) == 10_000_000_000_000_000_000
  {
    assert Pow10(3) == 1000;
    assert Pow10(6) == 1000 * Pow10(3) by { assert Pow10(6) == 10 * Pow10(5) == 100 * Pow10(4); }
    assert Pow10(9) == 1000 * Pow10(6) by { assert Pow10(9) == 10 * Pow10(8) == 100 * Pow10(7); }
    assert Pow10(12) == 1000 * Pow10(9) by { assert Pow10(12) == 10 * Pow10(11) == 100 * Pow10(10); }
    assert Pow10(15) == 1000 * Pow10(12) by { assert Pow10(15) == 10 * Pow10(14) == 100 * Pow10(13); }
    assert Pow10(18) == 1000 * Pow10(15) by { assert Pow10(18) == 10 * Pow10(17) == 100 * Pow10(16); }
  }

  lemma {:induction false} Pow10Monotone(m: nat, n: nat)
    requires m <= n
    ensures Pow10(m) <= Pow10(n)
    decreases n
  {
    if m < n {
      Pow10Monotone(m, n - 1);
    }
  }

  /** The digit loop, run over digits only, yields their decimal value unless it passes `uint64`. */
  lemma {:induction false} ParseUintDigits(s: string, k: nat, n: nat)
    requires AllDigits(s) && k <= |s|
    requires AllDigits(s[..k]) && n == Dec(s[..k]) && n <= MaxUint64
    ensures ParseUint(s, k, n) == if Dec(s) > MaxUint64 then Failure(ErrRange) else Success(Dec(s))
    decreases |s| - k
  {
    if k == |s| {
      assert s[..k] == s;
    } else {
      var n1 := n * 10 + DigitValue(s[k]);
      assert s[..k + 1] == s[..k] + [s[k]];
      DecSnoc(s[..k], s[k]);
      DecPrefixLe(s, k + 1);
      if n1 <= MaxUint64 {
        ParseUintDigits(s, k + 1, n1);
      }
    }
  }

  /** `Atoi` of a non-empty digit string is its decimal value, or a range error past `int`. */
  lemma AtoiDigits(s: string)
    requires s != [] && AllDigits(s)
    ensures Atoi(s) == if Dec(s) <= MaxInt then Success(Dec(s)) else Failure(ErrRange)
  {
    assert s[..0] == [];
    ParseUintDigits(s, 0, 0);
  }

  // ---------------------------------------------------------------------------
  // The search finds what the language describes.
  // ---------------------------------------------------------------------------

  /** The characters a match of the language pins down. */
  lemma MatchAtChars(s: string, i: int, a: string, b: string)
    requires MatchAt(s, i, a, b)
    ensures s[i .. i + |Keyword|] == Keyword && s[i] == 'P'
    ensures forall k :: 0 <= k < |a| ==> s[i + |Keyword| + k] == a[k]
    ensures IsDigit(s[i + |Keyword|])
    ensures s[i + |Keyword| + |a|] == '/'
    ensures forall k :: 0 <= k < |b| ==> s[i + |Keyword| + |a| + 1 + k] == b[k]
  {
    var w := Keyword + a + "/" + b;
    var e := i + |w|;
    forall k | 0 <= k < |w| ensures s[i + k] == w[k] {
      assert s[i .. e][k] == w[k];
    }
    assert s[i .. i + |Keyword|] == w[..|Keyword|];
    assert w[..|Keyword|] == Keyword;
    forall k | 0 <= k < |a| ensures s[i + |Keyword| + k] == a[k] {
      assert w[|Keyword| + k] == a[k];
    }
    assert w[|Keyword| + |a|] == '/';
    forall k | 0 <= k < |b| ensures s[i + |Keyword| + |a| + 1 + k] == b[k] {
      assert w[|Keyword| + |a| + 1 + k] == b[k];
    }
  }

  /** A match of the language is one the search sees, with the same first group and a second group no longer than the search's. */
  lemma MatchAtIsPattern(s: string, i: int, a: string, b: string)
    requires MatchAt(s, i, a, b)
    ensures PatternAt(s, i)
    ensures Group1(s, i) == a
    ensures |b| <= DigitRun(s, i + |Keyword| + |a| + 1)
    ensures b == s[i + |Keyword| + |a| + 1 .. i + |Keyword| + |a| + 1 + |b|]
  {
    MatchAtChars(s, i, a, b);
    var g1 := i + |Keyword|;
    var g2 := g1 + |a| + 1;
    var d1 := DigitRun(s, g1);
    assert d1 == |a|;
    assert s[g1 .. g1 + d1] == a;
    assert s[g2 .. g2 + |b|] == b;
  }

  /** What the search reports at `i` is a greedy match of the language. */
  lemma PatternIsGreedy(s: string, i: nat)
    requires PatternAt(s, i)
    ensures Greedy(s, i, Group1(s, i), Group2(s, i))
  {
    var a, b := Group1(s, i), Group2(s, i);
    var g1 := i + |Keyword|;
    var g2 := g1 + |a| + 1;
    var e := g2 + |b|;
    assert s[i .. e] == s[i .. g1] + s[g1 .. g1 + |a|] + s[g1 + |a| .. g2] + s[g2 .. e];
    assert s[g1 + |a| .. g2] == "/";
  }

  /** At a given position, a greedy match has exactly the search's groups. */
  lemma GreedyIsPattern(s: string, i: int, a: string, b: string)
    requires Greedy(s, i, a, b)
    ensures PatternAt(s, i) && Group1(s, i) == a && Group2(s, i) == b
  {
    MatchAtIsPattern(s, i, a, b);
  }

  /** `FindSubmatch` reports the leftmost greedy match, and nothing exactly when there is no match. */
  lemma FindSubmatchSpec(s: string)
    ensures FindSubmatch(s) == [] <==> NoMatchBefore(s, |s| + 1)
    ensures FindSubmatch(s) != [] ==>
      var m := FindSubmatch(s);
      |m| == 3 && m[0] == Keyword + m[1] + "/" + m[2] &&
      exists i :: Greedy(s, i, m[1], m[2]) && NoMatchBefore(s, i)
  {
    match FindFrom(s, 0)
    case None =>
      forall j, a, b | 0 <= j < |s| + 1 && MatchAt(s, j, a, b) ensures false {
        MatchAtIsPattern(s, j, a, b);
      }
    case Some(i) =>
      PatternIsGreedy(s, i);
      forall j, a, b | 0 <= j < i && MatchAt(s, j, a, b) ensures false {
        MatchAtIsPattern(s, j, a, b);
      }
      assert !NoMatchBefore(s, |s| + 1) by {
        assert MatchAt(s, i, Group1(s, i), Group2(s, i));
      }
  }

  /** At the leftmost greedy match, `FindSubmatch` returns exactly its groups. */
  lemma FindSubmatchAt(s: string, i: int, a: string, b: string)
    requires Greedy(s, i, a, b) && NoMatchBefore(s, i)
    ensures FindSubmatch(s) == [Keyword + a + "/" + b, a, b]
  {
    GreedyIsPattern(s, i, a, b);
    match FindFrom(s, 0)
    case None =>
      assert false;
    case Some(i') =>
      if i' < i {
        PatternIsGreedy(s, i');
        assert false;
      }
      assert i' == i;
  }

  // ---------------------------------------------------------------------------
  // What progress(ev) returns.
  // ---------------------------------------------------------------------------

  /**
   * At the leftmost match, `progress` returns the decimal values of the two
   * groups when both fit in an `int`, and `(0, 0, false)` otherwise: a later
   * match is never tried.
   */
  lemma ProgressAtLeftmostMatch(ev: Event, i: int, a: string, b: string)
    requires ev.eventType == "progress"
    requires Greedy(ev.payload.progress, i, a, b) && NoMatchBefore(ev.payload.progress, i)
    ensures Progress(ev) == if Dec(a) <= MaxInt && Dec(b) <= MaxInt then Reading(Dec(a), Dec(b), true) else NotFound
  {
    FindSubmatchAt(ev.payload.progress, i, a, b);
    AtoiDigits(a);
    AtoiDigits(b);
  }

  /** Without any match in the text, `progress` returns `(0, 0, false)`. */
  lemma ProgressWithoutMatch(ev: Event)
    requires NoMatchBefore(ev.payload.progress, |ev.payload.progress| + 1)
    ensures Progress(ev) == NotFound
  {
    FindSubmatchSpec(ev.payload.progress);
  }

  /**
   * A successful reading comes from a `progress` event, and is the pair of
   * non-negative decimal values of the groups of the leftmost greedy match.
   */
  lemma ProgressSound(ev: Event)
    ensures var r := Progress(ev);
      r.ok ==>
        ev.eventType == "progress" && r.processed >= 0 && r.found >= 0 &&
        exists i, a, b :: Greedy(ev.payload.progress, i, a, b) && NoMatchBefore(ev.payload.progress, i) &&
          r.processed == Dec(a) && r.found == Dec(b)
  {
    var s := ev.payload.progress;
    if Progress(ev).ok {
      FindSubmatchSpec(s);
      var m := FindSubmatch(s);
      var i :| Greedy(s, i, m[1], m[2]) && NoMatchBefore(s, i);
      ProgressAtLeftmostMatch(ev, i, m[1], m[2]);
    }
  }

  // ---------------------------------------------------------------------------
  // Concrete readings.
  // ---------------------------------------------------------------------------

  /** No match starts where the text has no 'P'. */
  lemma NoMatchWithoutP(s: string, from: int, to: int)
    requires 0 <= from <= to <= |s|
    requires forall k :: from <= k < to ==> s[k] != 'P'
    ensures forall j, a, b :: from <= j < to ==> !MatchAt(s, j, a, b)
  {
    forall j, a, b | from <= j < to && MatchAt(s, j, a, b) ensures false {
      MatchAtChars(s, j, a, b);
    }
  }

  lemma DecOne() ensures AllDigits("1") && Dec("1") == 1 { assert "1"[..0] == ""; }

  lemma DecTwo() ensures AllDigits("2") && Dec("2") == 2 { assert "2"[..0] == ""; }

  lemma Dec2153() ensures AllDigits("2153") && Dec("2153") == 2153
  {
    DecTwo();
    assert "2" + ['1'] == "21" && "21" + ['5'] == "215" && "215" + ['3'] == "2153";
    DecSnoc("2", '1');
    DecSnoc("21", '5');
    DecSnoc("215", '3');
  }

  lemma Dec3591() ensures AllDigits("3591") && Dec("3591") == 3591
  {
    assert "3"[..0] == "";
    assert "3" + ['5'] == "35" && "35" + ['9'] == "359" && "359" + ['1'] == "3591";
    DecSnoc("3", '5');
    DecSnoc("35", '9');
    DecSnoc("359", '1');
  }

  /** `"Processando 1/2"` reads as `(1, 2, true)`. */
  lemma ExampleSimple()
    ensures Progress(Event("progress", EventPayload("", "Processando 1/2"))) == Reading(1, 2, true)
  {
    var s := "Processando 1/2";
    assert s[0 .. 15] == Keyword + "1" + "/" + "2";
    assert Greedy(s, 0, "1", "2");
    DecOne();
    DecTwo();
    ProgressAtLeftmostMatch(Event("progress", EventPayload("", s)), 0, "1", "2");
  }

  /** `"Processando x/2"` has no match, so it reads as `(0, 0, false)`. */
  lemma ExampleNonDigit()
    ensures Progress(Event("progress", EventPayload("", "Processando x/2"))) == NotFound
  {
    var s := "Processando x/2";
    forall j, a, b | MatchAt(s, j, a, b) ensures false {
      MatchAtChars(s, j, a, b);
    }
    ProgressWithoutMatch(Event("progress", EventPayload("", s)));
  }

  /** The indexer's console line of the test suite, before and after its progress text. */
  const LogPrefix: string :=
    "2020-04-24 15:12:43     " + "[MSG]   [indexer.process." + "ProgressConsole]" + "                       "
  const LogSuffix: string := " (7%) 64GB/h Termino em 0h 55m 9s"

  /** In the console line, no match starts before the progress text. */
  lemma LogPrefixHasNoMatch(rest: string)
    ensures NoMatchBefore(LogPrefix + rest, |LogPrefix|)
  {
    var s := LogPrefix + rest;
    assert s[..24] == "2020-04-24 15:12:43     ";
    assert s[24..49] == "[MSG]   [indexer.process.";
    assert s[49..65] == "ProgressConsole]";
    assert s[65..88] == "                       ";
    NoMatchInChunk(s, 0, 24);
    NoMatchInChunk(s, 24, 49);
    NoMatchInChunk(s, 50, 65);
    NoMatchInChunk(s, 65, 88);
    assert s[52] == s[49..65][3] == 'g';
    NoMatchAtMismatch(s, 49, 3);
  }

  /** No match starts at `j` when the character `k` places further differs from the keyword's. */
  lemma NoMatchAtMismatch(s: string, j: nat, k: nat)
    requires k < |Keyword| && j + k < |s| && s[j + k] != Keyword[k]
    ensures forall a, b :: !MatchAt(s, j, a, b)
  {
    forall a, b | MatchAt(s, j, a, b) ensures false {
      MatchAtChars(s, j, a, b);
    }
  }

  /** No match starts in a stretch of the text that has no 'P'. */
  lemma NoMatchInChunk(s: string, from: int, to: int)
    requires 0 <= from <= to <= |s|
    requires forall k :: 0 <= k < to - from ==> s[from .. to][k] != 'P'
    ensures forall j, a, b :: from <= j < to ==> !MatchAt(s, j, a, b)
  {
    forall k | from <= k < to ensures s[k] != 'P' {
      assert s[k] == s[from .. to][k - from];
    }
    NoMatchWithoutP(s, from, to);
  }

  /**
   * Noise around the pattern is ignored: when no match starts in `pre` and
   * `suf` does not continue the second group, the groups are what is read.
   */
  lemma ProgressInNoise(path: string, pre: string, a: string, b: string, suf: string)
    requires a != [] && b != [] && AllDigits(a) && AllDigits(b)
    requires suf == [] || !IsDigit(suf[0])
    requires NoMatchBefore(pre + Keyword + a + "/" + b + suf, |pre|)
    requires Dec(a) <= MaxInt && Dec(b) <= MaxInt
    ensures Progress(Event("progress", EventPayload(path, pre + Keyword + a + "/" + b + suf))) == Reading(Dec(a), Dec(b), true)
  {
    var w := Keyword + a + "/" + b;
    var s := pre + Keyword + a + "/" + b + suf;
    assert s == pre + w + suf;
    assert s[|pre| .. |pre| + |w|] == w;
    assert |pre| + |w| < |s| ==> s[|pre| + |w|] == suf[0];
    assert Greedy(s, |pre|, a, b);
    ProgressAtLeftmostMatch(Event("progress", EventPayload(path, s)), |pre|, a, b);
  }

  /** Log noise around the match is ignored: the indexer's console line reads as `(2153, 3591, true)`. */
  lemma ExampleLogLine()
    ensures Progress(Event("progress", EventPayload("", LogPrefix + "Processando 2153/3591" + LogSuffix)))
      == Reading(2153, 3591, true)
  {
    var rest := Keyword + "2153" + "/" + "3591" + LogSuffix;
    assert Keyword + "2153" + "/" + "3591" == "Processando 2153/3591";
    assert LogPrefix + "Processando 2153/3591" + LogSuffix == LogPrefix + rest;
    assert LogPrefix + Keyword + "2153" + "/" + "3591" + LogSuffix == LogPrefix + rest;
    LogPrefixHasNoMatch(rest);
    Dec2153();
    Dec3591();
    ProgressInNoise("", LogPrefix, "2153", "3591", LogSuffix);
  }

  /**
   * A count too large for `int` makes the reading fail, even when a later
   * match in the same text would convert.
   */
  lemma ExampleOverflowNoRetry()
    ensures Progress(Event("progress", EventPayload("", "Processando 99999999999999999999/1 Processando 1/2"))) == NotFound
  {
    var big := "99999999999999999999";
    var s := Keyword + big + "/" + "1" + " Processando 1/2";
    assert s == "Processando 99999999999999999999/1 Processando 1/2";
    assert s[0 .. 34] == Keyword + big + "/" + "1";
    assert s[34] == ' ';
    assert Greedy(s, 0, big, "1");
    LongDigitsOverflow(big);
    ProgressAtLeftmostMatch(Event("progress", EventPayload("", s)), 0, big, "1");
  }
}
