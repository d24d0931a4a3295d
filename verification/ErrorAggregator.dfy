/** Counting error reports by fingerprint. The rewriting of paths and line numbers in a report is any fixed
    function; the source's is a chain of regular expressions. */
module ErrorAggregator {
  import opened Text
  import Fingerprint
  import Words

  datatype Entry = Entry(message: string, count: nat)

  /** The reports added since the last clear, oldest first. */
  type Reports = seq<string>

  function Normalized(report: string, rewrite: string -> string): string {
    Trim(rewrite(Lower(Trim(report))))
  }

  function FingerprintOf(report: string, rewrite: string -> string): string {
    Fingerprint.Of(Normalized(report, rewrite))
  }

  /** What the source tells reports apart by. */
  function KeyOf(rewrite: string -> string): string -> string {
    report => FingerprintOf(report, rewrite)
  }

  lemma GapsKeepRuns(front: string, s: string, back: string)
    requires AllSpaces(front) && AllSpaces(back)
    ensures Fingerprint.Runs(front + s + back) == Fingerprint.Runs(s)
  {
    var f, m, b := Lower(front), Lower(s), Lower(back);
    assert Lower(front + s + back) == f + m + b;
    Words.SplitGap(f, Fingerprint.NotAlnum);
    Words.SplitGap(b, Fingerprint.NotAlnum);
    assert f != [] ==> Fingerprint.NotAlnum(f[|f| - 1]);
    Words.SplitAppend(f, m, Fingerprint.NotAlnum);
    Words.SplitAppend(f + m, b, Fingerprint.NotAlnum);
  }

  /** Main result: two reports are counted together exactly when their rewritten texts have the same runs of
      letters and digits. White space around a report and the case of its letters make no difference. */
  lemma CountedTogether(a: string, b: string, rewrite: string -> string)
    ensures FingerprintOf(a, rewrite) == FingerprintOf(b, rewrite)
            <==> Fingerprint.WithFallback(rewrite(Lower(Trim(a)))) == Fingerprint.WithFallback(rewrite(Lower(Trim(b))))
    ensures Lower(Trim(a)) == Lower(Trim(b)) ==> FingerprintOf(a, rewrite) == FingerprintOf(b, rewrite)
  {
    Fingerprint.SameFingerprint(Normalized(a, rewrite), Normalized(b, rewrite));
    var x, y := rewrite(Lower(Trim(a))), rewrite(Lower(Trim(b)));
    var front, back := TrimMeans(x);
    GapsKeepRuns(front, Trim(x), back);
    front, back := TrimMeans(y);
    GapsKeepRuns(front, Trim(y), back);
  }

  // ---------- the reference, for any way to tell reports apart ----------

  function CountOf(reports: Reports, fp: string, key: string -> string): nat {
    if reports == [] then 0
    else CountOf(reports[..|reports| - 1], fp, key)
         + (if key(reports[|reports| - 1]) == fp then 1 else 0)
  }

  /** The earliest report with the fingerprint. */
  function FirstOf(reports: Reports, fp: string, key: string -> string): string
    requires CountOf(reports, fp, key) > 0
  {
    var before := reports[..|reports| - 1];
    if CountOf(before, fp, key) > 0 then FirstOf(before, fp, key) else reports[|reports| - 1]
  }

  /** The table a history of reports must have produced: exactly the fingerprints seen, each with its
      number of reports and the trimmed first of them. */
  ghost predicate Describes(errors: map<string, Entry>, reports: Reports, key: string -> string) {
    && (forall fp :: fp in errors <==> CountOf(reports, fp, key) > 0)
    && (forall fp :: fp in errors ==>
          && errors[fp].count == CountOf(reports, fp, key)
          && errors[fp].message == Trim(FirstOf(reports, fp, key)))
  }

  // ---------- the counts add up ----------

  ghost function Total(errors: map<string, Entry>): nat
    decreases |errors|
  {
    if errors == map[] then 0
    else
      var fp :| fp in errors;
      errors[fp].count + Total(errors - {fp})
  }

  lemma {:induction false} TotalWithout(errors: map<string, Entry>, fp: string)
    requires fp in errors
    ensures Total(errors) == errors[fp].count + Total(errors - {fp})
    decreases |errors|
  {
    var other :| other in errors && Total(errors) == errors[other].count + Total(errors - {other});
    if other != fp {
      TotalWithout(errors - {other}, fp);
      TotalWithout(errors - {fp}, other);
      assert errors - {other} - {fp} == errors - {fp} - {other};
    }
  }

  lemma TotalWith(errors: map<string, Entry>, fp: string, entry: Entry)
    ensures Total(errors[fp := entry]) ==
              Total(errors) + entry.count - (if fp in errors then errors[fp].count else 0)
  {
    var t := errors[fp := entry];
    TotalWithout(t, fp);
    assert t - {fp} == errors - {fp};
    if fp in errors {
      TotalWithout(errors, fp);
    } else {
      assert errors - {fp} == errors;
    }
  }

  /** The table after one more report. */
  function Added(errors: map<string, Entry>, report: string, key: string -> string): map<string, Entry> {
    var fp := key(report);
    if fp in errors then errors[fp := errors[fp].(count := errors[fp].count + 1)]
    else errors[fp := Entry(Trim(report), 1)]
  }

  lemma AddedDescribes(errors: map<string, Entry>, reports: Reports, report: string, key: string -> string)
    requires Describes(errors, reports, key)
    ensures Describes(Added(errors, report, key), reports + [report], key)
  {
    assert (reports + [report])[..|reports|] == reports;
  }

  function Rebuild(reports: Reports, key: string -> string): map<string, Entry> {
    if reports == [] then map[]
        else Added(Rebuild(reports[..|reports| - 1], key), reports[|reports| - 1], key)
  }

  lemma AddedTotal(errors: map<string, Entry>, report: string, key: string -> string)
    ensures Total(Added(errors, report, key)) == Total(errors) + 1
  {
    var fp := key(report);
    TotalWith(errors, fp, Added(errors, report, key)[fp]);
  }

  lemma {:induction false} RebuildTotal(reports: Reports, key: string -> string)
    ensures Total(Rebuild(reports, key)) == |reports|
  {
    if reports != [] {
      var before, last := reports[..|reports| - 1], reports[|reports| - 1];
      RebuildTotal(before, key);
      AddedTotal(Rebuild(before, key), last, key);
    }
  }

  lemma {:induction false} RebuildDescribes(reports: Reports, key: string -> string)
    ensures Describes(Rebuild(reports, key), reports, key)
    ensures Total(Rebuild(reports, key)) == |reports|
  {
    RebuildTotal(reports, key);
    if reports != [] {
      var before, last := reports[..|reports| - 1], reports[|reports| - 1];
      RebuildDescribes(before, key);
      AddedDescribes(Rebuild(before, key), before, last, key);
      assert before + [last] == reports;
    }
  }

  lemma OnlyOneTable(a: map<string, Entry>, b: map<string, Entry>, reports: Reports, key: string -> string)
    requires Describes(a, reports, key) && Describes(b, reports, key)
    ensures a == b
  {
    assert a.Keys == b.Keys;
    assert forall fp :: fp in a ==> a[fp] == b[fp];
  }

  /** Main result: whatever table describes a history, its counts sum to the number of reports. */
  lemma CountsSumToReports(errors: map<string, Entry>, reports: Reports, key: string -> string)
    requires Describes(errors, reports, key)
    ensures Total(errors) == |reports|
  {
    RebuildDescribes(reports, key);
    OnlyOneTable(errors, Rebuild(reports, key), reports, key);
  }

  // ---------- trimming and normalising ----------

  lemma {:induction false} SkipSpacesFrom(s: string, k: nat)
    requires k <= |s| && forall i :: 0 <= i < k ==> IsSpace(s[i])
    ensures SkipSpaces(s) == SkipSpaces(s[k..])
  {
    if k > 0 {
      SkipSpacesFrom(s[1..], k - 1);
      assert s[1..][k - 1..] == s[k..];
    } else {
      assert s[0..] == s;
    }
  }

  lemma {:induction false} DropTrailingFrom(s: string, k: nat)
    requires k <= |s| && forall i :: k <= i < |s| ==> IsSpace(s[i])
    ensures DropTrailingSpaces(s) == DropTrailingSpaces(s[..k])
  {
    if k < |s| {
      DropTrailingFrom(s[..|s| - 1], k);
      assert s[..|s| - 1][..k] == s[..k];
    } else {
      assert s[..k] == s;
    }
  }

  method TrimMessage(input: string) returns (r: string)
    ensures r == Trim(input)
  {
    var first := 0;
    while first < |input| && IsSpace(input[first])
      invariant first <= |input| && forall i :: 0 <= i < first ==> IsSpace(input[i])
    {
      first := first + 1;
    }
    SkipSpacesFrom(input, first);
    if first == |input| {
      return "";
    }
    var last := |input|;
    while last > first && IsSpace(input[last - 1])
      invariant first <= last <= |input| && forall i :: last <= i < |input| ==> IsSpace(input[i])
    {
      last := last - 1;
    }
    DropTrailingFrom(input[first..], last - first);
    assert input[first..][..last - first] == input[first..last];
    return input[first..last];
  }

  method NormalizeMessage(raw: string, rewrite: string -> string) returns (r: string)
    ensures r == Normalized(raw, rewrite)
  {
    var trimmed := TrimMessage(raw);
    r := TrimMessage(rewrite(Lower(trimmed)));
  }

  // ---------- the class ----------

  class Aggregator {
    const rewrite: string -> string
    var errors: map<string, Entry>
    ghost var reports: Reports

    ghost predicate Valid()
      reads this
    {
      Describes(errors, reports, KeyOf(rewrite))
    }

    constructor (rewrite: string -> string)
      ensures Valid() && reports == [] && this.rewrite == rewrite
    {
      this.rewrite := rewrite;
      errors, reports := map[], [];
    }

    /** Main result: the count returned is the number of reports with that fingerprint since the last
        clear, this one included, and the table describes the longer history. */
    method AddError(message: string) returns (fp: string, count: nat)
      requires Valid()
      modifies this
      ensures Valid() && reports == old(reports) + [message]
      ensures fp == FingerprintOf(message, rewrite) && count == CountOf(reports, fp, KeyOf(rewrite))
    {
      var normalized := NormalizeMessage(message, rewrite);
      fp := Fingerprint.ToFingerprint(normalized);
      AddedDescribes(errors, reports, message, KeyOf(rewrite));
      var entry := if fp in errors then errors[fp] else Entry("", 0);
      if entry.count == 0 {
        var trimmed := TrimMessage(message);
        entry := entry.(message := trimmed);
      }
      entry := entry.(count := entry.count + 1);
      errors := errors[fp := entry];
      count := entry.count;
      reports := reports + [message];
    }

    method Clear()
      requires Valid()
      modifies this
      ensures Valid() && reports == [] && errors == map[]
    {
      errors, reports := map[], [];
    }
  }
}
