/** What reportUserTrafficTask tells the panel (internal/controller/controller.go, internal/panel/client.go). */
module Report {
  import opened Panel

  // ---- 64-bit sums ----

  lemma {:induction false} WrapPeriod(x: int)
    ensures Wrap64(x + TWO_64) == Wrap64(x)
  {
    if x + TWO_64 <= MAX_INT64 { assert x < MIN_INT64; }
  }

  /** Wrapping each partial sum and wrapping the total once come to the same. */
  lemma {:induction false} WrapAdd(a: int, b: int)
    ensures Wrap64(Wrap64(a) + b) == Wrap64(a + b)
    decreases if a > MAX_INT64 then a - MAX_INT64 else if a < MIN_INT64 then MIN_INT64 - a else 0
  {
    if a > MAX_INT64 {
      WrapAdd(a - TWO_64, b);
      WrapPeriod(a + b - TWO_64);
    } else if a < MIN_INT64 {
      WrapAdd(a + TWO_64, b);
      WrapPeriod(a + b);
    }
  }

  // ---- the body of a traffic report ----

  /** Bytes the lines of the slice carry for a user id, before any wrap-around. */
  function Uploaded(slice: seq<UserTraffic>, uid: int): int {
    if slice == [] then 0
    else Uploaded(slice[..|slice| - 1], uid) + if slice[|slice| - 1].uid == uid then slice[|slice| - 1].upload else 0
  }

  function Downloaded(slice: seq<UserTraffic>, uid: int): int {
    if slice == [] then 0
    else Downloaded(slice[..|slice| - 1], uid) + if slice[|slice| - 1].uid == uid then slice[|slice| - 1].download else 0
  }

  /** `data` holds, for exactly the ids of the lines, what the lines sum up to. */
  ghost predicate Totals(slice: seq<UserTraffic>, data: map<int, (int, int)>) {
    && (forall uid :: uid in data <==> exists t <- slice :: t.uid == uid)
    && (forall uid <- data :: data[uid] == (Wrap64(Uploaded(slice, uid)), Wrap64(Downloaded(slice, uid))))
  }

  lemma NoLines(slice: seq<UserTraffic>, uid: int)
    requires forall t <- slice :: t.uid != uid
    ensures Uploaded(slice, uid) == 0 && Downloaded(slice, uid) == 0
  {
    if slice != [] {
      forall t <- slice[..|slice| - 1] ensures t in slice {}
      assert slice[|slice| - 1] in slice;
    }
  }

  /** Users that share an id share an entry; no line is dropped, none counted twice. */
  method Aggregate(slice: seq<UserTraffic>) returns (data: map<int, (int, int)>)
    ensures Totals(slice, data)
  {
    hide Uploaded, Downloaded;
    data := map[];
    for i := 0 to |slice|
      invariant Totals(slice[..i], data)
    {
      var t := slice[i];
      var current := if t.uid in data then data[t.uid] else (0, 0);
      ghost var before := data;
      data := data[t.uid := (Wrap64(current.0 + t.upload), Wrap64(current.1 + t.download))];
      TotalsGrow(slice[..i], slice[i], before, data);
      assert slice[..i] + [slice[i]] == slice[..i + 1];
    }
    assert slice[..|slice|] == slice;
  }

  lemma OneMore(slice: seq<UserTraffic>, t: UserTraffic, uid: int)
    ensures Uploaded(slice + [t], uid) == Uploaded(slice, uid) + if t.uid == uid then t.upload else 0
    ensures Downloaded(slice + [t], uid) == Downloaded(slice, uid) + if t.uid == uid then t.download else 0
  {
    assert (slice + [t])[..|slice|] == slice;
  }

  lemma TotalsGrow(slice: seq<UserTraffic>, t: UserTraffic, before: map<int, (int, int)>, after: map<int, (int, int)>)
    requires Totals(slice, before)
    requires var current := if t.uid in before then before[t.uid] else (0, 0);
      after == before[t.uid := (Wrap64(current.0 + t.upload), Wrap64(current.1 + t.download))]
    ensures Totals(slice + [t], after)
  {
    hide Uploaded, Downloaded, Wrap64;
    forall uid ensures uid in after <==> exists x <- slice + [t] :: x.uid == uid {
      assert t in slice + [t];
      assert forall x <- slice :: x in slice + [t];
      assert uid in before || uid == t.uid ==> exists x <- slice + [t] :: x.uid == uid;
    }
    forall uid | uid in after
      ensures after[uid] == (Wrap64(Uploaded(slice + [t], uid)), Wrap64(Downloaded(slice + [t], uid)))
    {
      OneMore(slice, t, uid);
      if uid == t.uid {
        WrapAdd(Uploaded(slice, uid), t.upload);
        WrapAdd(Downloaded(slice, uid), t.download);
        if uid !in before {
          NoLines(slice, uid);
          WrapZero();
        }
      }
    }
  }

  lemma WrapZero()
    ensures Wrap64(0) == 0
  {
  }

  // ---- which devices are reported online ----

  /** Ids with a line below the device minimum; deviceMin counts thousands of bytes. */
  predicate Skipped(slice: seq<UserTraffic>, deviceMin: int, uid: int) {
    exists t <- slice :: t.uid == uid && Wrap64(t.upload + t.download) < Threshold(deviceMin)
  }

  /** The addresses listed for an id, in order. */
  function Addresses(online: seq<OnlineUser>, uid: int): seq<string> {
    if online == [] then []
    else
      var o := online[|online| - 1];
      Addresses(online[..|online| - 1], uid) + if o.uid == uid then [o.ip] else []
  }

  ghost predicate OnlineReport(slice: seq<UserTraffic>, online: seq<OnlineUser>, deviceMin: int, data: map<int, seq<string>>) {
    && (forall uid :: uid in data <==> !Skipped(slice, deviceMin, uid) && Addresses(online, uid) != [])
    && (forall uid <- data :: data[uid] == Addresses(online, uid))
  }

  /** Every address of every id that is not skipped, and nothing else. */
  method ReportOnline(slice: seq<UserTraffic>, online: seq<OnlineUser>, deviceMin: int) returns (data: map<int, seq<string>>)
    ensures OnlineReport(slice, online, deviceMin, data)
  {
    hide Wrap64, Threshold;
    var noCount: set<int> := {};
    for i := 0 to |slice|
      invariant forall uid :: uid in noCount <==> Skipped(slice[..i], deviceMin, uid)
    {
      assert slice[..i + 1] == slice[..i] + [slice[i]];
      assert slice[i] in slice[..i + 1];
      if Wrap64(slice[i].upload + slice[i].download) < Threshold(deviceMin) {
        noCount := noCount + {slice[i].uid};
      }
    }
    assert slice[..|slice|] == slice;
    data := map[];
    for i := 0 to |online|
      invariant OnlineReport(slice, online[..i], deviceMin, data)
    {
      var o := online[i];
      assert online[..i + 1][..i] == online[..i];
      if o.uid !in noCount {
        data := data[o.uid := (if o.uid in data then data[o.uid] else []) + [o.ip]];
      }
    }
    assert online[..|online|] == online;
  }

  /** A user without traffic in the slice is never held back, whatever the minimum. */
  lemma IdleUsersAreReported(slice: seq<UserTraffic>, online: seq<OnlineUser>, deviceMin: int, data: map<int, seq<string>>, uid: int)
    requires OnlineReport(slice, online, deviceMin, data) && forall t <- slice :: t.uid != uid
    ensures uid in data <==> exists o <- online :: o.uid == uid
  {
    SomeAddress(online, uid);
  }

  lemma {:induction false} SomeAddress(online: seq<OnlineUser>, uid: int)
    ensures Addresses(online, uid) != [] <==> exists o <- online :: o.uid == uid
  {
    if online != [] {
      var n := |online| - 1;
      SomeAddress(online[..n], uid);
      assert online == online[..n] + [online[n]];
      assert forall o <- online[..n] :: o in online;
      assert online[n] in online;
    }
  }

  predicate InInt64(x: int) { MIN_INT64 <= x <= MAX_INT64 }

  /** Nothing in the slice is large enough to wrap around. */
  ghost predicate Small(slice: seq<UserTraffic>) {
    forall t <- slice :: InInt64(t.upload) && InInt64(t.download) && InInt64(t.upload + t.download)
  }

  /**
    An online id is reported unless it has a line of less than the minimum, counted in thousands of bytes,
    and then with exactly the addresses it is online from.
  */
  lemma OnlineExactly(slice: seq<UserTraffic>, online: seq<OnlineUser>, deviceMin: int, data: map<int, seq<string>>, uid: int)
    requires OnlineReport(slice, online, deviceMin, data) && Small(slice) && InInt64(deviceMin * 1000)
    ensures uid in data <==>
              (exists o <- online :: o.uid == uid) && forall t <- slice :: t.uid == uid ==> deviceMin * 1000 <= t.upload + t.download
    ensures uid in data ==> forall ip :: ip in data[uid] <==> exists o <- online :: o.uid == uid && o.ip == ip
  {
    hide Wrap64;
    SomeAddress(online, uid);
    forall ip ensures ip in Addresses(online, uid) <==> exists o <- online :: o.uid == uid && o.ip == ip {
      AddressesAre(online, uid, ip);
    }
  }

  lemma {:induction false} AddressesAre(online: seq<OnlineUser>, uid: int, ip: string)
    ensures ip in Addresses(online, uid) <==> exists o <- online :: o.uid == uid && o.ip == ip
  {
    if online != [] {
      var n := |online| - 1;
      AddressesAre(online[..n], uid, ip);
      assert online == online[..n] + [online[n]];
      assert forall o <- online[..n] :: o in online;
      assert online[n] in online;
    }
  }

  ghost predicate DistinctIds(slice: seq<UserTraffic>) {
    forall i, j | 0 <= i < j < |slice| :: slice[i].uid != slice[j].uid
  }

  /** When no two lines share an id, every line is reported as it is, upload first. */
  lemma DistinctLines(slice: seq<UserTraffic>, data: map<int, (int, int)>)
    requires Totals(slice, data) && DistinctIds(slice) && Small(slice)
    ensures forall t <- slice :: t.uid in data && data[t.uid] == (t.upload, t.download)
    ensures |data| == |slice|
  {
    hide Uploaded, Downloaded, Wrap64;
    forall t | t in slice ensures t.uid in data && data[t.uid] == (t.upload, t.download) {
      var i :| 0 <= i < |slice| && slice[i] == t;
      OnlyLine(slice, i);
    }
    DistinctCount(slice);
    forall uid ensures uid in data <==> uid in (set t | t in slice :: t.uid) {}
    assert data.Keys == set t | t in slice :: t.uid;
  }

  lemma {:induction false} OnlyLine(slice: seq<UserTraffic>, i: nat)
    requires i < |slice| && DistinctIds(slice)
    ensures Uploaded(slice, slice[i].uid) == slice[i].upload && Downloaded(slice, slice[i].uid) == slice[i].download
  {
    var n := |slice| - 1;
    if i < n {
      OnlyLine(slice[..n], i);
    } else {
      NoLines(slice[..n], slice[i].uid);
    }
  }

  lemma {:induction false} DistinctCount(slice: seq<UserTraffic>)
    requires DistinctIds(slice)
    ensures |set t | t in slice :: t.uid| == |slice|
  {
    if slice != [] {
      var n := |slice| - 1;
      DistinctCount(slice[..n]);
      var before := set t | t in slice[..n] :: t.uid;
      assert slice == slice[..n] + [slice[n]];
      assert (set t | t in slice :: t.uid) == before + {slice[n].uid};
      assert slice[n].uid !in before;
    }
  }
}
