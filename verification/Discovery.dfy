/** run_assessment: two passes over the users, the second extrapolating for those without any estimate. */
module Discovery {
  import opened Prelude

  /** Megabytes as bytes. */
  function Bytes(mb: real): real { mb * 1048576.0 }

  /** Reported message count of a folder, and how many messages a sample of it would list (None: it raises). */
  datatype FolderInfo = FolderInfo(count: nat, sample: Option<nat>)

  /** What the directory and the folder listing say about a user (None: the listing raises). */
  datatype Source = Source(storageBytes: nat, hasAccount: bool, folders: Option<seq<FolderInfo>>)

  datatype Assessment = Assessment(messages: nat, storageMb: real)

  function Counts(folders: seq<FolderInfo>): nat {
    if folders == [] then 0 else folders[0].count + Counts(folders[1..])
  }

  function Samples(folders: seq<FolderInfo>): nat {
    if folders == [] then 0
    else (if folders[0].sample.Some? then folders[0].sample.value else 0) + Samples(folders[1..])
  }

  function FolderMessages(folders: seq<FolderInfo>): nat {
    if Counts(folders) == 0 then Samples(if |folders| <= 3 then folders else folders[..3]) else Counts(folders)
  }

  predicate Sampled(sampleItems: bool, i: nat, n: nat) { sampleItems && (i < 25 || n <= 30) }

  /** First pass: the estimate for one user, and the bytes it adds to the total. */
  function FirstPass(u: Source, sampled: bool): (Assessment, nat) {
    var mb := u.storageBytes as real / 1048576.0;
    if sampled && u.hasAccount then
      if u.folders.None? then (Assessment(0, mb), u.storageBytes)
      else
        var m := FolderMessages(u.folders.value);
        if u.storageBytes == 0 && m > 0
        then (Assessment(m, (m * 100 * 1024) as real / 1048576.0), m * 100 * 1024)
        else (Assessment(m, mb), u.storageBytes)
    else if u.storageBytes > 0 then
      var est := u.storageBytes / (100 * 1024);
      (Assessment(if est > 1 then est else 1, mb), u.storageBytes)
    else (Assessment(0, mb), 0)
  }

  lemma FirstPassBytes(u: Source, sampled: bool)
    ensures FirstPass(u, sampled).1 as real == Bytes(FirstPass(u, sampled).0.storageMb)
    ensures FirstPass(u, sampled).0.storageMb >= 0.0
  {
  }

  function FirstAll(users: seq<Source>, sampleItems: bool): seq<Assessment> {
    seq(|users|, i requires 0 <= i < |users| => FirstPass(users[i], Sampled(sampleItems, i, |users|)).0)
  }

  /** The reported counts are added up over all folders. */
  lemma {:induction false} CountsAdd(a: seq<FolderInfo>, b: seq<FolderInfo>)
    ensures Counts(a + b) == Counts(a) + Counts(b)
    ensures Counts(a) == 0 <==> forall f | f in a :: f.count == 0
    ensures |a| == 1 ==> Counts(a) == a[0].count
  {
    if a == [] {
      assert a + b == b;
    } else {
      assert (a + b)[0] == a[0] && (a + b)[1..] == a[1..] + b;
      CountsAdd(a[1..], b);
      assert forall f :: f in a <==> f == a[0] || f in a[1..];
    }
  }

  /** What folder `k` adds to a count by samples. */
  function SampleAt(folders: seq<FolderInfo>, k: nat): nat {
    if k < |folders| && folders[k].sample.Some? then folders[k].sample.value else 0
  }

  lemma ThreeSamples(folders: seq<FolderInfo>)
    requires |folders| <= 3
    ensures Samples(folders) == SampleAt(folders, 0) + SampleAt(folders, 1) + SampleAt(folders, 2)
  {
    if |folders| > 0 {
      var rest := folders[1..];
      if |rest| > 0 {
        assert rest[1..] == folders[2..];
        if |folders| == 3 { assert folders[2..][1..] == []; }
      }
    }
  }

  /**
   The message count of a user in terms of its folders: their reported counts, or if all of them are
   zero what samples of the first three list, each sample that raises listing nothing.
   */
  lemma FolderMessagesMean(folders: seq<FolderInfo>)
    ensures (exists f | f in folders :: f.count > 0) ==> FolderMessages(folders) == Counts(folders)
    ensures (forall f | f in folders :: f.count == 0) ==>
              FolderMessages(folders) == SampleAt(folders, 0) + SampleAt(folders, 1) + SampleAt(folders, 2)
  {
    CountsAdd(folders, []);
    ThreeSamples(if |folders| <= 3 then folders else folders[..3]);
  }

  /**
   The estimate of the first pass for user `i`.  The folders of the first 25 users, or of all in an
   organisation of 30 at most, are inspected if sampling is on and the user has an account: the
   messages are then those of the folders, or none if they cannot be listed.  Otherwise there is a
   message for every full 100 KiB of storage, and at least one if there is any storage.  The size is the
   reported storage, and where none is reported 100 KiB for each message found.
   */
  lemma EstimateMeans(users: seq<Source>, sampleItems: bool, i: nat)
    requires i < |users|
    ensures |FirstAll(users, sampleItems)| == |users|
    ensures var u, a := users[i], FirstAll(users, sampleItems)[i];
      var inspected := sampleItems && (i < 25 || |users| <= 30) && u.hasAccount;
      && (inspected && u.folders.Some? ==> a.messages == FolderMessages(u.folders.value))
      && (inspected && u.folders.None? ==> a.messages == 0)
      && (!inspected && u.storageBytes >= 102400 ==> 102400 * a.messages <= u.storageBytes < 102400 * (a.messages + 1))
      && (!inspected && 0 < u.storageBytes < 102400 ==> a.messages == 1)
      && (!inspected && u.storageBytes == 0 ==> a.messages == 0)
      && a.storageMb * 1048576.0 == if u.storageBytes > 0 then u.storageBytes as real else (102400 * a.messages) as real
  {
  }

  // ---------------------------------------------------------------- sums

  predicate Blank(a: Assessment) { a.messages == 0 && a.storageMb == 0.0 }

  function Messages(s: seq<Assessment>): nat {
    if s == [] then 0 else Messages(s[..|s| - 1]) + s[|s| - 1].messages
  }

  function Storage(s: seq<Assessment>): real {
    if s == [] then 0.0 else Storage(s[..|s| - 1]) + s[|s| - 1].storageMb
  }

  function Blanks(s: seq<Assessment>): nat {
    if s == [] then 0 else Blanks(s[..|s| - 1]) + if Blank(s[|s| - 1]) then 1 else 0
  }

  lemma Snoc(s: seq<Assessment>, a: Assessment)
    ensures Messages(s + [a]) == Messages(s) + a.messages
    ensures Storage(s + [a]) == Storage(s) + a.storageMb
    ensures Blanks(s + [a]) == Blanks(s) + if Blank(a) then 1 else 0
  {
    assert (s + [a])[..|s|] == s;
  }

  /** Filling in one blank entry changes the sums by what is filled in. */
  lemma {:induction false} Fill(s: seq<Assessment>, i: nat, a: Assessment)
    requires i < |s| && Blank(s[i])
    ensures Messages(s[i := a]) == Messages(s) + a.messages
    ensures Storage(s[i := a]) == Storage(s) + a.storageMb
    decreases |s|
  {
    var n := |s| - 1;
    if i < n {
      Fill(s[..n], i, a);
      assert s[i := a][..n] == s[..n][i := a];
    } else {
      assert s[i := a][..n] == s[..n];
    }
  }

  /** round(x, 2), ties to even. */
  function Round2(x: real): real {
    var f := (x * 100.0).Floor;
    var d := x * 100.0 - f as real;
    (if d < 0.5 || (d == 0.5 && f % 2 == 0) then f else f + 1) as real / 100.0
  }

  /** The nearest multiple of 0.01, and between two of them the even one. */
  lemma Round2Means(x: real) returns (n: int)
    ensures Round2(x) == n as real / 100.0
    ensures -0.5 <= n as real - x * 100.0 <= 0.5
    ensures n as real - x * 100.0 == 0.5 || n as real - x * 100.0 == -0.5 ==> n % 2 == 0
  {
    var f := (x * 100.0).Floor;
    var d := x * 100.0 - f as real;
    n := if d < 0.5 || (d == 0.5 && f % 2 == 0) then f else f + 1;
  }

  // ---------------------------------------------------------------- the two passes

  /** How far the storage total may be off after extrapolating for `k` users: 0.005 MB and a byte each. */
  function Slack(k: nat): real { k as real * (0.005 * 1048576.0 + 1.0) }

  ghost predicate Near(bytes: nat, s: seq<Assessment>, k: nat) {
    -Slack(k) <= bytes as real - Bytes(Storage(s)) <= Slack(k)
  }

  lemma RoundingGap(x: real)
    requires x >= 0.0
    ensures Bytes(x).Floor >= 0
    ensures -Slack(1) <= Bytes(x).Floor as real - Bytes(Round2(x)) <= Slack(1)
  {
  }

  /** The estimate for user `i`, and the bytes it adds. */
  method FirstUser(users: seq<Source>, sampleItems: bool, i: nat) returns (a: Assessment, more: nat)
    requires i < |users|
    ensures FirstAll(users, sampleItems)[..i + 1] == FirstAll(users, sampleItems)[..i] + [a]
    ensures more as real == Bytes(a.storageMb) && a.storageMb >= 0.0
  {
    var estimate := FirstPass(users[i], Sampled(sampleItems, i, |users|));
    FirstPassBytes(users[i], Sampled(sampleItems, i, |users|));
    a, more := estimate.0, estimate.1;
  }

  /** The four running totals of the first pass over the assessments `s`. */
  ghost predicate Summed(s: seq<Assessment>, messages: nat, bytes: nat, storage: real, withEstimate: nat) {
    && messages == Messages(s)
    && storage == Storage(s) >= 0.0
    && bytes as real == Bytes(storage)
    && withEstimate == |s| - Blanks(s)
  }

  lemma SummedSnoc(s: seq<Assessment>, a: Assessment, more: nat,
                   messages: nat, bytes: nat, storage: real, withEstimate: nat)
    requires Summed(s, messages, bytes, storage, withEstimate)
    requires more as real == Bytes(a.storageMb) && a.storageMb >= 0.0
    ensures Summed(s + [a], messages + a.messages, bytes + more, storage + a.storageMb,
                   withEstimate + if a.messages > 0 || a.storageMb > 0.0 then 1 else 0)
  {
  }

  /** The first pass: the two sums the second pass divides, and how many users have an estimate. */
  method FirstLoop(users: seq<Source>, sampleItems: bool, report: array<Assessment>)
      returns (messages: nat, bytes: nat, storage: real, withEstimate: nat)
    requires report.Length == |users|
    modifies report
    ensures report[..] == FirstAll(users, sampleItems)
    ensures Summed(report[..], messages, bytes, storage, withEstimate)
  {
    messages, bytes, storage, withEstimate := 0, 0, 0.0, 0;
    var i := 0;
    while i < |users|
      invariant i <= |users| && report[..i] == FirstAll(users, sampleItems)[..i]
      invariant Summed(report[..i], messages, bytes, storage, withEstimate)
    {
      var a, more := FirstUser(users, sampleItems, i);
      SummedSnoc(report[..i], a, more, messages, bytes, storage, withEstimate);
      report[i] := a;
      assert report[..i + 1] == report[..i] + [a];
      messages, bytes, storage := messages + a.messages, bytes + more, storage + a.storageMb;
      if a.messages > 0 || a.storageMb > 0.0 { withEstimate := withEstimate + 1; }
      i := i + 1;
    }
    assert report[..i] == report[..] && FirstAll(users, sampleItems)[..i] == FirstAll(users, sampleItems);
  }

  /** One blank assessment filled in: what it adds to the totals, in messages and in bytes. */
  lemma FillGap(s: seq<Assessment>, i: nat, avgMessages: nat, avgStorage: real, bytes: nat, k: nat)
    requires i < |s| && Blank(s[i]) && avgStorage >= 0.0 && Near(bytes, s, k)
    ensures Bytes(avgStorage).Floor >= 0
    ensures var s' := s[i := Assessment(avgMessages, Round2(avgStorage))];
      && Messages(s') == Messages(s) + avgMessages
      && Near(bytes + Bytes(avgStorage).Floor, s', k + 1)
  {
    Fill(s, i, Assessment(avgMessages, Round2(avgStorage)));
    RoundingGap(avgStorage);
  }

  /** `x` added `k` times over. */
  function Added(k: nat, x: nat): nat { if k == 0 then 0 else Added(k - 1, x) + x }

  lemma {:induction false} AddedIsProduct(k: nat, x: nat)
    ensures Added(k, x) == k * x
  {
    if k > 0 { AddedIsProduct(k - 1, x); }
  }

  /** The estimates with `a` where there was none. */
  function Filled(s: seq<Assessment>, a: Assessment): seq<Assessment> {
    seq(|s|, i requires 0 <= i < |s| => if Blank(s[i]) then a else s[i])
  }

  /** The second pass has dealt with the entries before `i`. */
  ghost predicate FilledUpTo(first: seq<Assessment>, now: seq<Assessment>, i: nat, a: Assessment) {
    i <= |first| == |now| && now[..i] == Filled(first[..i], a) && now[i..] == first[i..]
  }

  ghost predicate Extrapolated(first: seq<Assessment>, now: seq<Assessment>, i: nat, a: Assessment,
                               messages: nat, totalMessages: nat, totalBytes: nat) {
    && FilledUpTo(first, now, i, a)
    && totalMessages == Messages(now) && totalMessages == messages + Added(Blanks(first[..i]), a.messages)
    && Near(totalBytes, now, Blanks(first[..i]))
  }

  lemma FillNext(first: seq<Assessment>, now: seq<Assessment>, i: nat, a: Assessment)
    requires FilledUpTo(first, now, i, a) && i < |first|
    ensures now[i] == first[i]
    ensures FilledUpTo(first, if Blank(now[i]) then now[i := a] else now, i + 1, a)
    ensures Blanks(first[..i + 1]) == Blanks(first[..i]) + if Blank(now[i]) then 1 else 0
  {
    assert now[i] == now[i..][0] == first[i..][0] == first[i];
    Snoc(first[..i], first[i]);
    assert first[..i] + [first[i]] == first[..i + 1];
  }

  lemma ExtrapolateNext(first: seq<Assessment>, now: seq<Assessment>, i: nat, avgMessages: nat, avgStorage: real,
                        messages: nat, totalMessages: nat, totalBytes: nat)
    requires Extrapolated(first, now, i, Assessment(avgMessages, Round2(avgStorage)), messages, totalMessages, totalBytes)
    requires i < |first| && avgStorage >= 0.0
    ensures var a := Assessment(avgMessages, Round2(avgStorage));
      && Bytes(avgStorage).Floor >= 0
      && if Blank(now[i])
         then Extrapolated(first, now[i := a], i + 1, a,
                           messages, totalMessages + avgMessages, totalBytes + Bytes(avgStorage).Floor)
         else Extrapolated(first, now, i + 1, a, messages, totalMessages, totalBytes)
  {
    RoundingGap(avgStorage);
    FillNext(first, now, i, Assessment(avgMessages, Round2(avgStorage)));
    if Blank(now[i]) { FillGap(now, i, avgMessages, avgStorage, totalBytes, Blanks(first[..i])); }
  }

  /** Second pass: the average for every user without an estimate, in place. */
  method Extrapolate(report: array<Assessment>, avgMessages: nat, avgStorage: real, messages: nat, bytes: nat)
      returns (totalMessages: nat, totalBytes: nat)
    requires messages == Messages(report[..]) && bytes as real == Bytes(Storage(report[..]))
    requires avgStorage >= 0.0
    modifies report
    ensures report[..] == Filled(old(report[..]), Assessment(avgMessages, Round2(avgStorage)))
    ensures totalMessages == Messages(report[..])
    ensures totalMessages == messages + Added(Blanks(old(report[..])), avgMessages)
    ensures Near(totalBytes, report[..], Blanks(old(report[..])))
  {
    ghost var first := report[..];
    var filled := Assessment(avgMessages, Round2(avgStorage));
    totalMessages, totalBytes := messages, bytes;
    var i := 0;
    while i < report.Length
      invariant i <= report.Length
      invariant Extrapolated(first, report[..], i, filled, messages, totalMessages, totalBytes)
    {
      ghost var now := report[..];
      ExtrapolateNext(first, now, i, avgMessages, avgStorage, messages, totalMessages, totalBytes);
      if Blank(report[i]) {
        report[i] := filled;
        assert report[..] == now[i := filled];
        totalMessages := totalMessages + avgMessages;
        totalBytes := totalBytes + Bytes(avgStorage).Floor;
      }
      i := i + 1;
    }
    assert first[..i] == first && report[..][..i] == report[..];
  }

  /** The second pass over a report whose first pass gave these totals. */
  method FillBlanks(report: array<Assessment>, messages: nat, bytes: nat, storage: real, withEstimate: nat)
      returns (totalMessages: nat, totalBytes: nat)
    requires 0 < withEstimate < report.Length && Summed(report[..], messages, bytes, storage, withEstimate)
    modifies report
    ensures report[..] == Filled(old(report[..]),
                                 Assessment(messages / withEstimate, Round2(storage / withEstimate as real)))
    ensures totalMessages == Messages(report[..])
    ensures totalMessages == messages + (report.Length - withEstimate) * (messages / withEstimate)
    ensures Near(totalBytes, report[..], report.Length - withEstimate)
  {
    var avgStorage := storage / withEstimate as real;
    totalMessages, totalBytes := Extrapolate(report, messages / withEstimate, avgStorage, messages, bytes);
    AddedIsProduct(report.Length - withEstimate, messages / withEstimate);
  }

  /** With extrapolation the total lies in (S * n / s - (n - s), S * n / s]. */
  lemma ExtrapolationBounds(sum: nat, s: nat, n: nat)
    requires 0 < s < n
    ensures var total := sum + (n - s) * (sum / s);
      (sum * n) as real / s as real - (n - s) as real < total as real <= (sum * n) as real / s as real
  {
  }

  /**
   The message total is the sum of the per-user estimates; with S counted over the s users that
   have an estimate, out of n, it is S + (n - s) * floor(S / s) when anything is extrapolated.  The
   storage total differs from the per-user sum by at most 0.005 MB and one byte per extrapolated
   user.
   */
  method RunAssessment(users: seq<Source>, sampleItems: bool)
      returns (totalMessages: nat, totalStorageMb: real, report: array<Assessment>)
    ensures totalMessages == Messages(report[..])
    ensures var first := FirstAll(users, sampleItems);
      var n, s, sum := |users|, |users| - Blanks(first), Messages(first);
      if 0 < s < n then
        && totalMessages == sum + (n - s) * (sum / s)
        && report[..] == Filled(first, Assessment(sum / s, Round2(Storage(first) / s as real)))
      else totalMessages == sum && report[..] == first
    ensures var n, s, sum := |users|, |users| - Blanks(FirstAll(users, sampleItems)), Messages(FirstAll(users, sampleItems));
      0 < s < n ==>
        (sum * n) as real / s as real - (n - s) as real < totalMessages as real <= (sum * n) as real / s as real
    ensures var blanks := Blanks(FirstAll(users, sampleItems));
      var extrapolated := if blanks < |users| then blanks else 0;
      -Slack(extrapolated) <= Bytes(totalStorageMb) - Bytes(Storage(report[..])) <= Slack(extrapolated)
  {
    report := new Assessment[|users|](_ => Assessment(0, 0.0));
    var messages, bytes, storage, withEstimate := FirstLoop(users, sampleItems, report);
    totalMessages := messages;
    if 0 < withEstimate < |users| {
      totalMessages, bytes := FillBlanks(report, messages, bytes, storage, withEstimate);
      ExtrapolationBounds(messages, withEstimate, |users|);
    }
    totalStorageMb := bytes as real / 1048576.0;
  }
}
