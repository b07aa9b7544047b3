/** The robot's durable outbox and the bridge that fills, resends and clears it.
    The file is a value: the JSON document last renamed into place, none, or
    something that does not parse. */
module PendingReports {
  import opened Tables
  import opened TaskRules

  // The decoded MQTT message: a status report, or an application for goods.
  datatype Payload = StatusPayload(e: AmrEvent) | GoodsPayload(messageId: string, req: ApplyRequest)

  datatype PendingReport = PendingReport(messageId: string, topic: string, payload: Payload)

  datatype JsonDoc = JsonDoc(version: int, reports: seq<PendingReport>)
  datatype File = Missing | Malformed | Json(doc: JsonDoc)

  function PayloadId(p: Payload): string {
    match p
    case StatusPayload(e) => e.messageId
    case GoodsPayload(id, _) => id
  }

  predicate IsReadable(r: PendingReport) { r.messageId != "" && r.topic != "" }

  // The entries that reading the file back yields.
  function Readable(rs: seq<PendingReport>): seq<PendingReport> {
    if rs == [] then []
    else Readable(rs[..|rs| - 1]) + (if IsReadable(rs[|rs| - 1]) then [rs[|rs| - 1]] else [])
  }

  predicate HasId(rs: seq<PendingReport>, id: string) {
    exists i :: 0 <= i < |rs| && rs[i].messageId == id
  }

  function Added(rs: seq<PendingReport>, r: PendingReport): seq<PendingReport> {
    if HasId(rs, r.messageId) || !IsReadable(r) then rs else rs + [r]
  }

  function Without(rs: seq<PendingReport>, ids: seq<string>): seq<PendingReport> {
    if rs == [] then []
    else Without(rs[..|rs| - 1], ids) + (if rs[|rs| - 1].messageId in ids then [] else [rs[|rs| - 1]])
  }

  lemma {:induction false} ReadableIsReadable(rs: seq<PendingReport>)
    ensures forall r :: r in Readable(rs) <==> r in rs && IsReadable(r)
    ensures forall i | 0 <= i < |Readable(rs)| :: IsReadable(Readable(rs)[i])
  {
    if rs != [] {
      ReadableIsReadable(rs[..|rs| - 1]);
      assert rs == rs[..|rs| - 1] + [rs[|rs| - 1]];
    }
  }

  /** Saving readable reports and loading them again gives them back, in order. */
  lemma {:induction false} SaveLoadRoundTrip(rs: seq<PendingReport>)
    requires forall i | 0 <= i < |rs| :: IsReadable(rs[i])
    ensures Readable(rs) == rs
  {
    if rs != [] {
      SaveLoadRoundTrip(rs[..|rs| - 1]);
    }
  }

  /** Removing by ids keeps exactly the other reports. */
  lemma {:induction false} WithoutExactly(rs: seq<PendingReport>, ids: seq<string>)
    ensures forall r :: r in Without(rs, ids) <==> r in rs && r.messageId !in ids
  {
    if rs != [] {
      WithoutExactly(rs[..|rs| - 1], ids);
      assert rs == rs[..|rs| - 1] + [rs[|rs| - 1]];
    }
  }

  /** What is removed leaves the order of the others alone. */
  lemma {:induction false} WithoutInOrder(a: seq<PendingReport>, b: seq<PendingReport>, ids: seq<string>)
    ensures Without(a + b, ids) == Without(a, ids) + Without(b, ids)
  {
    if b == [] {
      assert a + b == a;
    } else {
      var n := |b| - 1;
      assert (a + b)[..|a| + n] == a + b[..n];
      WithoutInOrder(a, b[..n], ids);
    }
  }

  /** A report handed to the store is in it afterwards exactly when it is
      readable and no other stored report carries its message id: a report whose
      id collides with a stored one is dropped in silence. */
  lemma AddKeepsExactly(rs: seq<PendingReport>, r: PendingReport)
    ensures r in Added(rs, r) <==> r in rs || (IsReadable(r) && !HasId(rs, r.messageId))
    ensures forall s :: s in rs ==> s in Added(rs, r)
    ensures forall s :: s in Added(rs, r) ==> s in rs || s == r
  {
    if r in rs {
      var i :| 0 <= i < |rs| && rs[i] == r;
      assert HasId(rs, r.messageId);
    }
  }

  lemma AddedMeans(rs: seq<PendingReport>, r: PendingReport)
    ensures (exists i :: 0 <= i < |rs| && rs[i].messageId == r.messageId) ==> Added(rs, r) == rs
    ensures (forall i | 0 <= i < |rs| :: rs[i].messageId != r.messageId) ==>
              Added(rs, r) == if r.messageId == "" || r.topic == "" then rs else rs + [r]
  {
  }

  // Saving what was read with one more report stores what is to be stored.
  lemma SavedIsAdded(read: seq<PendingReport>, r: PendingReport)
    requires forall i | 0 <= i < |Readable(read)| :: Readable(read)[i].messageId != r.messageId
    ensures Readable(Readable(read) + [r]) == Added(Readable(read), r)
  {
    hide Readable, Added, HasId;
    var rs := Readable(read);
    assert forall i | 0 <= i < |rs| :: IsReadable(rs[i]) by {
      ReadableIsReadable(read);
    }
    SaveLoadRoundTrip(rs);
    ReadableAppend(rs, r);
    AddedMeans(rs, r);
  }

  lemma ReadableAppend(rs: seq<PendingReport>, r: PendingReport)
    ensures Readable(rs + [r]) == Readable(rs) + (if IsReadable(r) then [r] else [])
  {
    assert (rs + [r])[..|rs|] == rs;
  }

  predicate DistinctIds(rs: seq<PendingReport>) {
    forall i, j | 0 <= i < j < |rs| :: rs[i].messageId != rs[j].messageId
  }

  /** The store never holds two reports with one message id, and keeps the
      reports in the order in which they were added. */
  lemma {:induction false} StoreKeepsDistinctIds(rs: seq<PendingReport>, r: PendingReport, ids: seq<string>)
    requires DistinctIds(rs)
    ensures DistinctIds(Added(rs, r)) && DistinctIds(Without(rs, ids))
    ensures rs <= Added(rs, r)
  {
    if rs != [] {
      var n := |rs| - 1;
      StoreKeepsDistinctIds(rs[..n], r, ids);
      WithoutExactly(rs[..n], ids);
      forall i | 0 <= i < |Without(rs[..n], ids)|
        ensures Without(rs[..n], ids)[i].messageId != rs[n].messageId
      {
        assert Without(rs[..n], ids)[i] in rs[..n];
      }
    }
  }

  class PendingReportStore {
    var file: File

    function Contents(): seq<PendingReport>
      reads this
    {
      if file.Json? then Readable(file.doc.reports) else []
    }

    constructor (file: File)
      ensures this.file == file
    {
      this.file := file;
    }

    method ToJson(reports: seq<PendingReport>) returns (doc: JsonDoc)
      ensures doc == JsonDoc(1, reports)
    {
      var items := [];
      for i := 0 to |reports|
        invariant items == reports[..i]
      {
        items := items + [reports[i]];
      }
      doc := JsonDoc(1, items);
    }

    method Save(reports: seq<PendingReport>)
      modifies this
      ensures Contents() == Readable(reports)
    {
      var doc := ToJson(reports);
      file := Json(doc);
    }

    method Load() returns (reports: seq<PendingReport>)
      ensures reports == Contents()
      ensures !file.Json? ==> reports == []
      ensures forall r :: r in reports <==> file.Json? && r in file.doc.reports && r.messageId != "" && r.topic != ""
    {
      reports := [];
      if !file.Json? {
        return;
      }
      var items := file.doc.reports;
      for i := 0 to |items|
        invariant reports == Readable(items[..i])
      {
        assert items[..i + 1][..i] == items[..i];
        if items[i].messageId != "" && items[i].topic != "" {
          reports := reports + [items[i]];
        }
      }
      assert items[..|items|] == items;
      ReadableIsReadable(items);
    }

    method Add(report: PendingReport)
      modifies this
      ensures Contents() == Added(old(Contents()), report)
      ensures var was := old(Contents());
        Contents() == if report.messageId == "" || report.topic == ""
                         || exists i :: 0 <= i < |was| && was[i].messageId == report.messageId
                      then was else was + [report]
    {
      hide Added, HasId;
      AddedMeans(Contents(), report);
      var reports := Load();
      for i := 0 to |reports|
        invariant forall j | 0 <= j < i :: reports[j].messageId != report.messageId
        invariant file == old(file)
      {
        if reports[i].messageId == report.messageId {
          return;
        }
      }
      SavedIsAdded(if file.Json? then file.doc.reports else [], report);
      hide Readable;
      Save(reports + [report]);
    }

    method RemoveByMessageIds(ids: seq<string>)
      modifies this
      ensures Contents() == Without(old(Contents()), ids)
      ensures forall r :: r in Contents() <==> r in old(Contents()) && r.messageId !in ids
    {
      var reports := Load();
      var kept := [];
      for i := 0 to |reports|
        invariant kept == Without(reports[..i], ids)
        invariant file == old(file)
      {
        assert reports[..i + 1][..i] == reports[..i];
        if reports[i].messageId !in ids {
          kept := kept + [reports[i]];
        }
      }
      assert reports[..|reports|] == reports;
      WithoutExactly(reports, ids);
      if file.Json? {
        ReadableIsReadable(file.doc.reports);
      }
      forall i | 0 <= i < |kept| ensures IsReadable(kept[i]) {
        assert kept[i] in kept && kept[i] in reports;
      }
      SaveLoadRoundTrip(kept);
      Save(kept);
    }
  }

  // What the bridge stores of an event it was given: nothing when the broker took it.
  function AfterEmit(rs: seq<PendingReport>, r: PendingReport, connected: bool, published: bool): seq<PendingReport> {
    if r.topic == "" || (connected && published) then rs else Added(rs, r)
  }

  // The stored reports that a flush hands to the broker.
  function Flushed(rs: seq<PendingReport>, connected: bool, taken: set<string>): seq<PendingReport> {
    if !connected || rs == [] then []
    else Flushed(rs[..|rs| - 1], connected, taken)
         + (if rs[|rs| - 1].messageId in taken then [rs[|rs| - 1]] else [])
  }

  lemma {:induction false} FlushedExactly(rs: seq<PendingReport>, connected: bool, taken: set<string>)
    ensures forall r :: r in Flushed(rs, connected, taken) <==> connected && r in rs && r.messageId in taken
  {
    if rs != [] {
      FlushedExactly(rs[..|rs| - 1], connected, taken);
      assert rs == rs[..|rs| - 1] + [rs[|rs| - 1]];
    }
  }

  /** A flush sends in the order in which the reports were stored. */
  lemma {:induction false} FlushedInOrder(
    a: seq<PendingReport>, b: seq<PendingReport>, connected: bool, taken: set<string>)
    ensures Flushed(a + b, connected, taken) == Flushed(a, connected, taken) + Flushed(b, connected, taken)
  {
    if b == [] {
      assert a + b == a;
    } else {
      var n := |b| - 1;
      assert (a + b)[..|a| + n] == a + b[..n];
      FlushedInOrder(a, b[..n], connected, taken);
    }
  }

  /** `published` and `taken` are what the MQTT client answers. */
  class TaskBridge {
    const pending: PendingReportStore

    constructor (pending: PendingReportStore)
      ensures this.pending == pending
    {
      this.pending := pending;
    }

    method PublishTaskEvent(r: PendingReport, connected: bool, published: bool) returns (sent: bool)
      modifies pending
      ensures pending.Contents() == AfterEmit(old(pending.Contents()), r, connected, published)
      ensures sent <==> r.topic != "" && connected && published
      ensures var was := old(pending.Contents());
        pending.Contents() == if sent || r.messageId == "" || r.topic == ""
                                 || exists i :: 0 <= i < |was| && was[i].messageId == r.messageId
                              then was else was + [r]
    {
      if r.topic == "" {
        return false;
      }
      if connected {
        if !published {
          pending.Add(r);
        }
        sent := published;
      } else {
        pending.Add(r);
        sent := false;
      }
    }

    method FlushPendingReports(connected: bool, taken: set<string>) returns (sent: seq<PendingReport>)
      ensures sent == Flushed(pending.Contents(), connected, taken)
      ensures forall r :: r in sent <==> connected && r in pending.Contents() && r.messageId in taken
    {
      sent := [];
      FlushedExactly(pending.Contents(), connected, taken);
      if !connected {
        return;
      }
      var reports := pending.Load();
      for i := 0 to |reports|
        invariant sent == Flushed(reports[..i], connected, taken)
      {
        assert reports[..i + 1][..i] == reports[..i];
        if reports[i].messageId in taken {
          sent := sent + [reports[i]];
        }
      }
      assert reports[..|reports|] == reports;
    }

    method OnStatusAckMessage(ackedIds: seq<string>)
      modifies pending
      ensures pending.Contents() == Without(old(pending.Contents()), ackedIds)
      ensures forall r :: r in pending.Contents() <==> r in old(pending.Contents()) && r.messageId !in ackedIds
    {
      pending.RemoveByMessageIds(ackedIds);
    }
  }
}
