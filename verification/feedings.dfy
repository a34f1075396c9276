/** The feeding log: how a feeding is written to and read back from the
    backend's document store, and the filter that picks one cat's
    feedings of today.

    Network calls, subscriptions and the React provider are not modelled;
    a snapshot is a sequence of (document id, document) pairs handed in by
    the caller, and the instant the store assigns to a new document is a
    parameter of the commit. */
module Feedings {
  import opened Wrappers
  import opened Clock

  /** A feeding as the application holds it. */
  datatype Feeding = Feeding(
    id: string,
    catId: string,
    timestamp: int,
    slotLabel: Option<string>,
    userId: Option<string>
  )

  /** A document field as the client reads it: missing, `null`, or a string. */
  datatype Field = Absent | Null | Text(s: string)

  /** The stored timestamp: still the pending server-timestamp placeholder,
      or the instant the server assigned. */
  datatype Stamp = PendingServerTime | Resolved(ms: int)

  /** The stored shape of a feeding document. */
  datatype FeedingDoc = FeedingDoc(catId: string, slotLabel: Field, timestamp: Stamp, userId: Field)

  /** `x ?? null`: an absent value is written as `null`. */
  function ToField(o: Option<string>): (f: Field)
    ensures f != Absent
    ensures f == Null <==> o.None?
  {
    match o
    case None => Null
    case Some(s) => Text(s)
  }

  /** `x ?? undefined` (and `x ?? null`): a missing or `null` field reads as absent. */
  function FromField(f: Field): (o: Option<string>)
    ensures o.Some? <==> f.Text?
    ensures o.Some? ==> o.value == f.s
  {
    match f
    case Text(s) => Some(s)
    case _ => None
  }

  /** Writing then reading an optional value gives it back. */
  lemma FieldRoundTrip(o: Option<string>)
    ensures FromField(ToField(o)) == o
  {
  }

  /** The document `logFeeding(catId, slotLabel)` adds, with the signed-in
      user's id if there is one. */
  function LogFeeding(catId: string, slotLabel: Option<string>, currentUid: Option<string>)
    : (doc: FeedingDoc)
    ensures doc.catId == catId
    ensures doc.timestamp == PendingServerTime
    ensures doc.slotLabel != Absent && doc.userId != Absent
  {
    FeedingDoc(catId, ToField(slotLabel), PendingServerTime, ToField(currentUid))
  }

  /** The server resolves the pending timestamp of a document to the
      instant `t` it stored it at. */
  function ServerCommit(doc: FeedingDoc, t: int): FeedingDoc {
    if doc.timestamp.PendingServerTime? then doc.(timestamp := Resolved(t)) else doc
  }

  /** The snapshot mapper: one document read as a feeding. A timestamp that
      is still pending reads as `readNow`, the instant of reading. */
  function ReadFeeding(id: string, doc: FeedingDoc, readNow: int): (f: Feeding)
    ensures f.id == id && f.catId == doc.catId
    ensures f.slotLabel.Some? <==> doc.slotLabel.Text?
    ensures doc.slotLabel.Text? ==> f.slotLabel.value == doc.slotLabel.s
    ensures f.userId.None? <==> doc.userId == Absent || doc.userId == Null
    ensures doc.userId.Text? ==> f.userId.value == doc.userId.s
    ensures doc.timestamp.Resolved? ==> f.timestamp == doc.timestamp.ms
    ensures doc.timestamp.PendingServerTime? ==> f.timestamp == readNow
  {
    Feeding(
      id,
      doc.catId,
      match doc.timestamp
      case Resolved(ms) => ms
      case PendingServerTime => readNow,
      FromField(doc.slotLabel),
      FromField(doc.userId)
    )
  }

  /** A logged feeding, once committed by the server at `t`, reads back
      with exactly the cat, label and user it was logged with. */
  lemma LogReadRoundTrip(
    id: string, catId: string, slotLabel: Option<string>, currentUid: Option<string>,
    t: int, readNow: int)
    ensures ReadFeeding(id, ServerCommit(LogFeeding(catId, slotLabel, currentUid), t), readNow)
            == Feeding(id, catId, t, slotLabel, currentUid)
  {
  }

  /** A snapshot, newest first, mapped document by document. */
  function ReadSnapshot(docs: seq<(string, FeedingDoc)>, readNow: int): (fs: seq<Feeding>)
    ensures |fs| == |docs|
    ensures forall i :: 0 <= i < |docs| ==> fs[i].id == docs[i].0 && fs[i].catId == docs[i].1.catId
    ensures forall i :: 0 <= i < |docs| ==> fs[i].slotLabel == FromField(docs[i].1.slotLabel)
    ensures forall i :: 0 <= i < |docs| ==> fs[i].userId == FromField(docs[i].1.userId)
    ensures forall i :: 0 <= i < |docs| ==>
      fs[i].timestamp == if docs[i].1.timestamp.Resolved? then docs[i].1.timestamp.ms else readNow
  {
    seq(|docs|, i requires 0 <= i < |docs| => ReadFeeding(docs[i].0, docs[i].1, readNow))
  }

  /** Whether a feeding belongs to `catId` and to the day starting at
      `dayStart`, both window ends included. */
  predicate IsForCatToday(f: Feeding, catId: string, dayStart: int) {
    f.catId == catId && StartOfDay(dayStart) <= f.timestamp && f.timestamp <= EndOfDay(dayStart)
  }

  /** `r` is `s` with some elements left out, the rest in their order. */
  ghost predicate IsSubsequence<T>(r: seq<T>, s: seq<T>)
    decreases |s|
  {
    if |r| == 0 then true
    else if |s| == 0 then false
    else (r[0] == s[0] && IsSubsequence(r[1..], s[1..])) || IsSubsequence(r, s[1..])
  }

  /** `getForCatToday(catId)`: the feedings of `catId` whose timestamp lies
      in [00:00:00.000, 23:59:59.999] of today, in the snapshot's order. */
  function GetForCatToday(feedings: seq<Feeding>, catId: string, dayStart: int)
    : (r: seq<Feeding>)
    ensures forall i :: 0 <= i < |r| ==>
      r[i].catId == catId && dayStart <= r[i].timestamp <= dayStart + 86_399_999
    ensures forall i :: 0 <= i < |feedings| ==>
      feedings[i].catId == catId && dayStart <= feedings[i].timestamp <= dayStart + 86_399_999
      ==> feedings[i] in r
    ensures IsSubsequence(r, feedings)
    decreases |feedings|
  {
    if |feedings| == 0 then []
    else
      var rest := GetForCatToday(feedings[1..], catId, dayStart);
      assert forall i :: 1 <= i < |feedings| ==> feedings[i] == feedings[1..][i - 1];
      if IsForCatToday(feedings[0], catId, dayStart) then
        var r := [feedings[0]] + rest;
        assert r[1..] == rest;
        r
      else rest
  }

  /** How many times `x` occurs in `s`. */
  function Count<T(==)>(s: seq<T>, x: T): nat {
    multiset(s)[x]
  }

  /** The filter keeps every copy of a matching feeding and no copy of any
      other: with order preserved, this determines the result completely. */
  lemma {:induction false} GetForCatTodayCounts(feedings: seq<Feeding>, catId: string, dayStart: int, x: Feeding)
    ensures Count(GetForCatToday(feedings, catId, dayStart), x)
            == if IsForCatToday(x, catId, dayStart) then Count(feedings, x) else 0
    decreases |feedings|
  {
    if |feedings| > 0 {
      GetForCatTodayCounts(feedings[1..], catId, dayStart, x);
      assert feedings == [feedings[0]] + feedings[1..];
      assert multiset(feedings) == multiset([feedings[0]]) + multiset(feedings[1..]);
    }
  }

  /** Newest first: timestamps never increase along the sequence. */
  predicate NewestFirst(fs: seq<Feeding>) {
    forall i, j :: 0 <= i < j < |fs| ==> fs[i].timestamp >= fs[j].timestamp
  }

  /** Leaving elements out keeps a newest-first sequence newest first. */
  lemma {:induction false} SubsequenceKeepsNewestFirst(r: seq<Feeding>, s: seq<Feeding>)
    requires IsSubsequence(r, s) && NewestFirst(s)
    ensures NewestFirst(r)
    ensures forall i :: 0 <= i < |r| ==> r[i] in s
    decreases |s|
  {
    if |r| > 0 {
      assert NewestFirst(s[1..]);
      if r[0] == s[0] && IsSubsequence(r[1..], s[1..]) {
        SubsequenceKeepsNewestFirst(r[1..], s[1..]);
        forall i | 1 <= i < |r|
          ensures r[0].timestamp >= r[i].timestamp
        {
          assert r[i] == r[1..][i - 1];
          var k :| 0 <= k < |s[1..]| && s[1..][k] == r[i];
          assert s[k + 1] == r[i];
        }
        forall i | 1 <= i < |r|
          ensures r[i] in s
        {
          assert r[i] == r[1..][i - 1];
        }
      } else {
        SubsequenceKeepsNewestFirst(r, s[1..]);
      }
    }
  }

  /** Today's feedings of a cat, taken from a newest-first snapshot, are
      newest first too: the first of them is the latest feeding of the day. */
  lemma TodayKeepsNewestFirst(feedings: seq<Feeding>, catId: string, dayStart: int)
    requires NewestFirst(feedings)
    ensures NewestFirst(GetForCatToday(feedings, catId, dayStart))
  {
    SubsequenceKeepsNewestFirst(GetForCatToday(feedings, catId, dayStart), feedings);
  }
}
