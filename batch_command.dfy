/** The `batch` command: read a file of URLs, one per line, run the fetch
    command on each non-blank line in turn, and count how many completed and
    how many failed. Whether one fetch completes is given as a value per call;
    the fetch itself is modelled in `FetchCmd`. */
module BatchCmd {
  import opened Types
  import opened Text

  /** What the file system gives for the path: nothing there, a file that
      cannot be read (its error message), or its text. */
  datatype BatchFile = Missing | Unreadable(message: string) | Readable(text: string)

  /** The lines kept by `.filter((url) => url.trim())`: those that are not
      blank, since a trimmed line is the empty (falsy) string exactly when the
      line is blank (`Text.Trim`). */
  function KeepNonBlank(lines: seq<string>): (kept: seq<string>)
    ensures |kept| <= |lines|
    ensures forall i :: 0 <= i < |kept| ==> Trim(kept[i]) != ""
  {
    if |lines| == 0 then []
    else (if !IsBlank(lines[0]) then [lines[0]] else []) + KeepNonBlank(lines[1..])
  }

  /** A line is kept exactly when it is one of the lines and is not blank. */
  lemma {:induction false} KeepNonBlankMembers(lines: seq<string>, l: string)
    ensures l in KeepNonBlank(lines) <==> l in lines && Trim(l) != ""
  {
    if |lines| > 0 {
      KeepNonBlankMembers(lines[1..], l);
      assert lines == [lines[0]] + lines[1..];
    }
  }

  /** Filtering keeps the order of the lines: it works piece by piece. */
  lemma {:induction false} KeepNonBlankAppend(a: seq<string>, b: seq<string>)
    ensures KeepNonBlank(a + b) == KeepNonBlank(a) + KeepNonBlank(b)
  {
    if |a| == 0 {
      assert a + b == b;
    } else {
      assert (a + b)[1..] == a[1..] + b;
      KeepNonBlankAppend(a[1..], b);
    }
  }

  /** The URLs of a batch file: its lines split on '\n', blank ones dropped. */
  function UrlLines(text: string): (urls: seq<string>)
    ensures |urls| <= |Split(text, '\n')|
    ensures forall i :: 0 <= i < |urls| ==> Trim(urls[i]) != ""
  {
    KeepNonBlank(Split(text, '\n'))
  }

  /** A file whose non-blank lines are written one per line gives those lines back. */
  lemma UrlLinesOfJoined(urls: seq<string>)
    requires |urls| > 0
    requires forall i :: 0 <= i < |urls| ==> '\n' !in urls[i] && Trim(urls[i]) != ""
    ensures UrlLines(Join(urls, '\n')) == urls
  {
    SplitJoin(urls, '\n');
    KeepAllNonBlank(urls);
  }

  /** Lines none of which is blank are all kept. */
  lemma {:induction false} KeepAllNonBlank(lines: seq<string>)
    requires forall i :: 0 <= i < |lines| ==> Trim(lines[i]) != ""
    ensures KeepNonBlank(lines) == lines
  {
    if |lines| > 0 {
      KeepAllNonBlank(lines[1..]);
    }
  }

  /** Of the first `n` calls, how many completed. */
  function Completed(calls: seq<string>, succeeds: (nat, string) -> bool, n: nat): (count: nat)
    requires n <= |calls|
    ensures count <= n
  {
    if n == 0 then 0 else Completed(calls, succeeds, n - 1) + (if succeeds(n - 1, calls[n - 1]) then 1 else 0)
  }

  /** Of the first `n` calls, how many failed. */
  function Failed(calls: seq<string>, succeeds: (nat, string) -> bool, n: nat): (count: nat)
    requires n <= |calls|
    ensures count <= n
  {
    if n == 0 then 0 else Failed(calls, succeeds, n - 1) + (if succeeds(n - 1, calls[n - 1]) then 0 else 1)
  }

  /** Every call is counted exactly once: as completed or as failed. */
  lemma {:induction false} CountsPartition(calls: seq<string>, succeeds: (nat, string) -> bool, n: nat)
    requires n <= |calls|
    ensures Completed(calls, succeeds, n) + Failed(calls, succeeds, n) == n
  {
    if n > 0 {
      CountsPartition(calls, succeeds, n - 1);
    }
  }

  /** All calls completed and none failed exactly when every call succeeded;
      none completed and all failed exactly when every call failed. */
  lemma {:induction false} CountsAtExtremes(calls: seq<string>, succeeds: (nat, string) -> bool, n: nat)
    requires n <= |calls|
    ensures Completed(calls, succeeds, n) == n <==> forall i :: 0 <= i < n ==> succeeds(i, calls[i])
    ensures Completed(calls, succeeds, n) == 0 <==> forall i :: 0 <= i < n ==> !succeeds(i, calls[i])
    ensures Failed(calls, succeeds, n) == 0 <==> forall i :: 0 <= i < n ==> succeeds(i, calls[i])
    ensures Failed(calls, succeeds, n) == n <==> forall i :: 0 <= i < n ==> !succeeds(i, calls[i])
  {
    CountsPartition(calls, succeeds, n);
    if n > 0 {
      CountsAtExtremes(calls, succeeds, n - 1);
    }
  }

  /** The lines reported as failed, in order, among the first `n`. */
  function FailedLines(urls: seq<string>, calls: seq<string>, succeeds: (nat, string) -> bool, n: nat): (r: seq<string>)
    requires n <= |urls| && n <= |calls|
    ensures |r| == Failed(calls, succeeds, n)
  {
    if n == 0 then []
    else FailedLines(urls, calls, succeeds, n - 1) + (if succeeds(n - 1, calls[n - 1]) then [] else [urls[n - 1]])
  }

  datatype BatchOutcome =
    | Stopped(message: string)
    | Summary(calls: seq<string>, failures: seq<string>, completed: nat, failed: nat, total: nat)

  /** `batchCommand(filePath, options)`. `succeeds(k, url)` says whether the
      fetch of the k-th URL (0-based), called with `url`, completed. */
  method BatchCommand(filePath: string, file: BatchFile, succeeds: (nat, string) -> bool)
    returns (r: BatchOutcome)
    ensures file.Missing? ==> r == Stopped("File not found: " + filePath)
    ensures file.Unreadable? ==> r == Stopped(file.message)
    ensures file.Readable? ==>
      var urls := UrlLines(file.text);
      r.Summary?
      && r.total == |urls|
      // each non-blank line is fetched once, in order, trimmed
      && |r.calls| == |urls| && (forall k :: 0 <= k < |urls| ==> r.calls[k] == Trim(urls[k]))
      // a failure is counted and reported, and does not stop the rest
      && r.completed == Completed(r.calls, succeeds, |urls|)
      && r.failed == Failed(r.calls, succeeds, |urls|)
      && r.failures == FailedLines(urls, r.calls, succeeds, |urls|)
      && r.completed + r.failed == r.total
  {
    match file
    case Missing =>
      return Stopped("File not found: " + filePath);
    case Unreadable(message) =>
      return Stopped(message);
    case Readable(text) =>
      var urls := UrlLines(text);
      var calls, failures, completed, failed := FetchEach(urls, succeeds);
      return Summary(calls, failures, completed, failed, |urls|);
  }

  /** The arguments the fetches are called with: the k-th is the k-th URL trimmed. */
  function TrimAll(urls: seq<string>): (calls: seq<string>)
    ensures |calls| == |urls|
    ensures forall k :: 0 <= k < |urls| ==> calls[k] == Trim(urls[k])
  {
    if |urls| == 0 then [] else TrimAll(urls[..|urls| - 1]) + [Trim(urls[|urls| - 1])]
  }

  /** The loop of `batchCommand`: fetch every URL in turn, trimmed, and count
      the outcomes; a failed fetch is warned about and the loop goes on. */
  method FetchEach(urls: seq<string>, succeeds: (nat, string) -> bool)
    returns (calls: seq<string>, failures: seq<string>, completed: nat, failed: nat)
    ensures calls == TrimAll(urls)
    ensures completed == Completed(calls, succeeds, |urls|)
    ensures failed == Failed(calls, succeeds, |urls|)
    ensures failures == FailedLines(urls, calls, succeeds, |urls|)
    ensures completed + failed == |urls|
  {
    calls, failures := [], [];
    completed, failed := 0, 0;
    var i := 0;
    while i < |urls|
      invariant 0 <= i <= |urls|
      invariant calls == TrimAll(urls[..i])
      invariant completed == Completed(calls, succeeds, i)
      invariant failed == Failed(calls, succeeds, i)
      invariant failures == FailedLines(urls, calls, succeeds, i)
    {
      var url := urls[i];
      var call := Trim(url);
      var ok := succeeds(i, call);
      PrefixCounts(calls, call, succeeds, urls);
      assert urls[..i + 1][..i] == urls[..i];
      calls := calls + [call];
      if ok {
        completed := completed + 1;
      } else {
        failures := failures + [url];
        failed := failed + 1;
      }
      i := i + 1;
    }
    assert urls[..i] == urls;
    CountsPartition(calls, succeeds, |urls|);
  }

  /** Appending a call leaves the counts of the earlier calls unchanged, and
      the appended call is counted on the side its outcome says. */
  lemma PrefixCounts(calls: seq<string>, call: string, succeeds: (nat, string) -> bool, urls: seq<string>)
    requires |calls| < |urls|
    ensures var n, more := |calls|, calls + [call];
      Completed(more, succeeds, n + 1) == Completed(calls, succeeds, n) + (if succeeds(n, call) then 1 else 0)
      && Failed(more, succeeds, n + 1) == Failed(calls, succeeds, n) + (if succeeds(n, call) then 0 else 1)
      && FailedLines(urls, more, succeeds, n + 1)
         == FailedLines(urls, calls, succeeds, n) + (if succeeds(n, call) then [] else [urls[n]])
  {
    SameCountsOnPrefix(calls, calls + [call], succeeds, urls, |calls|);
  }

  /** Counts over the first `n` calls depend only on those calls. */
  lemma {:induction false} SameCountsOnPrefix(calls: seq<string>, longer: seq<string>, succeeds: (nat, string) -> bool,
                                              urls: seq<string>, n: nat)
    requires n <= |calls| <= |longer| && n <= |urls| && calls == longer[..|calls|]
    ensures Completed(longer, succeeds, n) == Completed(calls, succeeds, n)
    ensures Failed(longer, succeeds, n) == Failed(calls, succeeds, n)
    ensures FailedLines(urls, longer, succeeds, n) == FailedLines(urls, calls, succeeds, n)
  {
    if n > 0 {
      SameCountsOnPrefix(calls, longer, succeeds, urls, n - 1);
      assert longer[n - 1] == calls[n - 1];
    }
  }
}
