/** Progress of a running import: how often it is written, and what is written. */
module ImportProgress {
  const BYTES_INTERVAL := 1_048_576
  const TIME_INTERVAL := 2_000

  datatype Update = Update(bytes: nat, at: nat)

  /** The last update written, in bytes and milliseconds; no time yet reads as 0. */
  datatype Throttle = Throttle(bytes: nat, at: nat)

  predicate Persists(t: Throttle, u: Update) {
    !(u.bytes - t.bytes < BYTES_INTERVAL && u.at - t.at < TIME_INTERVAL)
  }

  function Percent(bytes: nat, fileSize: nat): (p: nat)
    requires fileSize > 0
    ensures p <= 99
  {
    if bytes * 100 / fileSize < 99 then bytes * 100 / fileSize else 99
  }

  /** The throttle after a run of updates. */
  function ThrottleAfter(t: Throttle, updates: seq<Update>): Throttle {
    if updates == [] then t
    else
      var before, last := ThrottleAfter(t, updates[..|updates| - 1]), updates[|updates| - 1];
      if Persists(before, last) then Throttle(last.bytes, last.at) else before
  }

  /** The updates of a run that are written. */
  function Written(t: Throttle, updates: seq<Update>): (written: seq<Update>)
    ensures |written| <= |updates|
  {
    if updates == [] then []
    else
      var before, last := updates[..|updates| - 1], updates[|updates| - 1];
      Written(t, before) + if Persists(ThrottleAfter(t, before), last) then [last] else []
  }

  class ProgressReporter {
    const fileSize: nat
    var lastPersistedBytes: nat
    var lastPersistedAt: nat
    var written: seq<Update>
    var percents: seq<nat>

    function State(): Throttle
      reads this
    {
      Throttle(lastPersistedBytes, lastPersistedAt)
    }

    ghost predicate Valid()
      reads this
    {
      fileSize > 0 && |percents| == |written| &&
      forall i :: 0 <= i < |written| ==> percents[i] == Percent(written[i].bytes, fileSize)
    }

    constructor (fileSize: nat, processedBytes: nat)
      requires fileSize > 0
      ensures Valid() && this.fileSize == fileSize && written == [] && percents == []
      ensures State() == Throttle(processedBytes, 0)
    {
      this.fileSize, lastPersistedBytes, lastPersistedAt, written, percents := fileSize, processedBytes, 0, [], [];
    }

    method Report(u: Update)
      requires Valid()
      modifies this
      ensures Valid()
      ensures written == old(written) + if Persists(old(State()), u) then [u] else []
      ensures State() == if Persists(old(State()), u) then Throttle(u.bytes, u.at) else old(State())
    {
      if u.bytes - lastPersistedBytes < BYTES_INTERVAL && u.at - lastPersistedAt < TIME_INTERVAL {
        return;
      }
      percents := percents + [Percent(u.bytes, fileSize)];
      written := written + [u];
      lastPersistedBytes := u.bytes;
      lastPersistedAt := u.at;
    }
  }

  lemma OneMoreUpdate(t: Throttle, updates: seq<Update>, u: Update)
    ensures Written(t, updates + [u]) ==
      Written(t, updates) + if Persists(ThrottleAfter(t, updates), u) then [u] else []
    ensures ThrottleAfter(t, updates + [u]) ==
      if Persists(ThrottleAfter(t, updates), u) then Throttle(u.bytes, u.at) else ThrottleAfter(t, updates)
  {
    assert (updates + [u])[..|updates|] == updates;
  }

  ghost predicate Ascending(updates: seq<Update>) {
    forall i, j :: 0 <= i <= j < |updates| ==> updates[i].bytes <= updates[j].bytes && updates[i].at <= updates[j].at
  }

  lemma {:induction false} WrittenAreUpdates(t: Throttle, updates: seq<Update>, u: Update)
    ensures u in Written(t, updates) ==> u in updates
  {
    if updates != [] {
      WrittenAreUpdates(t, updates[..|updates| - 1], u);
    }
  }

  /** Once something was written, the throttle stands at an update of the run. */
  lemma {:induction false} ThrottleIsAnUpdate(t: Throttle, updates: seq<Update>)
    requires Written(t, updates) != []
    ensures var now := ThrottleAfter(t, updates); Update(now.bytes, now.at) in updates
  {
    var before, last := updates[..|updates| - 1], updates[|updates| - 1];
    if !Persists(ThrottleAfter(t, before), last) {
      ThrottleIsAnUpdate(t, before);
    }
  }

  /** Updates written after the first, by what made them due: enough bytes, or else enough time. */
  lemma {:induction false} WrittenAreDue(t: Throttle, updates: seq<Update>) returns (byBytes: nat, byTime: nat)
    requires Ascending(updates) && Written(t, updates) != []
    ensures |Written(t, updates)| == 1 + byBytes + byTime
    ensures Written(t, updates)[0].bytes + byBytes * BYTES_INTERVAL <= ThrottleAfter(t, updates).bytes
    ensures Written(t, updates)[0].at + byTime * TIME_INTERVAL <= ThrottleAfter(t, updates).at
    decreases |updates|
  {
    var before, last := updates[..|updates| - 1], updates[|updates| - 1];
    if Written(t, before) == [] {
      byBytes, byTime := 0, 0;
    } else {
      byBytes, byTime := WrittenAreDue(t, before);
      var now := ThrottleAfter(t, before);
      if Persists(now, last) {
        ThrottleIsAnUpdate(t, before);
        if last.bytes - now.bytes >= BYTES_INTERVAL {
          byBytes := byBytes + 1;
        } else {
          byTime := byTime + 1;
        }
      }
    }
  }

  lemma ProductAscends(a: nat, b: nat, d: nat)
    requires a <= b
    ensures a * d <= b * d
  {
  }

  lemma QuotientBound(n: nat, d: nat, total: nat)
    requires d > 0 && n * d <= total
    ensures n <= total / d
  {
    var q := total / d;
    assert total < (q + 1) * d;
    if q + 1 <= n {
      ProductAscends(q + 1, n, d);
    }
  }

  /** While neither the clock nor the byte count goes back, the updates written are at most the first,
      one for every full MiB, and one for every full two seconds since the first. */
  lemma WritesAreBounded(t: Throttle, updates: seq<Update>)
    requires Ascending(updates) && updates != []
    ensures var first, last := updates[0], updates[|updates| - 1];
      |Written(t, updates)| <= 1 + (last.bytes - first.bytes) / BYTES_INTERVAL + (last.at - first.at) / TIME_INTERVAL
  {
    var first, last := updates[0], updates[|updates| - 1];
    assert first.bytes <= last.bytes && first.at <= last.at;
    if Written(t, updates) != [] {
      var byBytes, byTime := WrittenAreDue(t, updates);
      WrittenAreUpdates(t, updates, Written(t, updates)[0]);
      ThrottleIsAnUpdate(t, updates);
      QuotientBound(byBytes, BYTES_INTERVAL, last.bytes - first.bytes);
      QuotientBound(byTime, TIME_INTERVAL, last.at - first.at);
    }
  }

  lemma QuotientAscends(a: nat, b: nat, d: nat)
    requires d > 0 && a <= b
    ensures a / d <= b / d
  {
    assert (a / d) * d <= a;
    QuotientBound(a / d, d, b);
  }

  lemma {:induction false} WrittenAscends(t: Throttle, updates: seq<Update>)
    requires Ascending(updates)
    ensures Ascending(Written(t, updates))
  {
    if updates != [] {
      var before, last := updates[..|updates| - 1], updates[|updates| - 1];
      WrittenAscends(t, before);
      forall u | u in Written(t, before) ensures u.bytes <= last.bytes && u.at <= last.at {
        WrittenAreUpdates(t, before, u);
      }
    }
  }

  /** The percentages written never go back and stay below the final 100. */
  lemma PercentsAscend(t: Throttle, updates: seq<Update>, fileSize: nat, i: nat, j: nat)
    requires Ascending(updates) && fileSize > 0 && i <= j < |Written(t, updates)|
    ensures Percent(Written(t, updates)[i].bytes, fileSize) <= Percent(Written(t, updates)[j].bytes, fileSize) < 100
  {
    WrittenAscends(t, updates);
    var a, b := Written(t, updates)[i].bytes, Written(t, updates)[j].bytes;
    QuotientAscends(a * 100, b * 100, fileSize);
  }

  lemma {:induction false} ThrottleStands(t: Throttle, updates: seq<Update>)
    requires Ascending(updates) && updates != [] && t.bytes <= updates[0].bytes && t.at <= updates[0].at
    ensures var last := updates[|updates| - 1];
      ThrottleAfter(t, updates).bytes <= last.bytes && ThrottleAfter(t, updates).at <= last.at
  {
    if |updates| > 1 {
      ThrottleStands(t, updates[..|updates| - 1]);
    }
  }

  lemma {:induction false} NothingWritten(t: Throttle, updates: seq<Update>, i: nat)
    requires i <= |updates| && |Written(t, updates)| <= |Written(t, updates[..i])|
    ensures ThrottleAfter(t, updates) == ThrottleAfter(t, updates[..i])
  {
    if i == |updates| {
      assert updates[..i] == updates;
    } else {
      var before := updates[..|updates| - 1];
      assert before[..i] == updates[..i];
      WrittenGrows(t, before, i);
      NothingWritten(t, before, i);
    }
  }

  lemma {:induction false} WrittenGrows(t: Throttle, updates: seq<Update>, i: nat)
    requires i <= |updates|
    ensures |Written(t, updates[..i])| <= |Written(t, updates)|
  {
    if i == |updates| {
      assert updates[..i] == updates;
    } else {
      assert updates[..|updates| - 1][..i] == updates[..i];
      WrittenGrows(t, updates[..|updates| - 1], i);
    }
  }

  /** Progress does not lag: between two updates a MiB or two seconds apart, at least one is written. */
  lemma WritesKeepUp(t: Throttle, updates: seq<Update>, i: nat)
    requires Ascending(updates) && i < |updates| && t.bytes <= updates[0].bytes && t.at <= updates[0].at
    requires var last := updates[|updates| - 1];
      last.bytes - updates[i].bytes >= BYTES_INTERVAL || last.at - updates[i].at >= TIME_INTERVAL
    ensures |Written(t, updates)| > |Written(t, updates[..i + 1])|
  {
    if |Written(t, updates)| <= |Written(t, updates[..i + 1])| {
      var before := updates[..|updates| - 1];
      assert before[..i + 1] == updates[..i + 1];
      WrittenGrows(t, before, i + 1);
      NothingWritten(t, before, i + 1);
      ThrottleStands(t, updates[..i + 1]);
    }
  }

  /** The percentage is the bytes of the file in whole hundredths, held at 99. */
  lemma PercentIs(bytes: nat, fileSize: nat)
    requires fileSize > 0
    ensures var p := Percent(bytes, fileSize);
      && p * fileSize <= bytes * 100
      && (p < 99 ==> bytes * 100 < (p + 1) * fileSize)
      && (p == 99 <==> 99 * fileSize <= bytes * 100)
  {
    var q := bytes * 100 / fileSize;
    assert q * fileSize <= bytes * 100 < (q + 1) * fileSize;
    if q >= 99 {
      ProductAscends(99, q, fileSize);
    } else {
      ProductAscends(q + 1, 99, fileSize);
    }
  }
}
