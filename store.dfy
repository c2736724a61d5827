/**
 * The document store holding the dispute records, reduced to what the route
 * handlers use: lookup by ticket ids, ordered bulk insertion, single
 * creation, filtered listing newest first, and update by ticket id. The
 * unique index on `ticketId` and the schema validation are its invariant.
 */
module Store {
  import opened Wrappers
  import opened Values
  import opened DisputeModel

  function IdsOf(rs: seq<Dispute>): set<string> {
    set i | 0 <= i < |rs| :: rs[i].ticketId
  }

  predicate UniqueIds(rs: seq<Dispute>) {
    forall i, j :: 0 <= i < j < |rs| ==> rs[i].ticketId != rs[j].ticketId
  }

  /**
   * The schema conversion of a whole batch: every draft must be admissible,
   * otherwise the batch is refused as a whole.
   */
  function MaterialiseAll(drafts: seq<Draft>, now: int): (r: Option<seq<Dispute>>)
    ensures r.Some? <==> forall k :: 0 <= k < |drafts| ==> Admissible(drafts[k])
    ensures r.Some? ==> |r.value| == |drafts|
    ensures r.Some? ==> forall k :: 0 <= k < |drafts| ==> Materialise(drafts[k], now) == Some(r.value[k])
  {
    if drafts == [] then Some([])
    else
      var head := Materialise(drafts[0], now);
      var tail := MaterialiseAll(drafts[1..], now);
      assert forall k :: 1 <= k < |drafts| ==> drafts[k] == drafts[1..][k - 1];
      if head.None? then None
      else if tail.None? then None
      else Some([head.value] + tail.value)
  }

  /** Appending a record with a fresh ticket id keeps the ids unique. */
  lemma AppendFresh(rs: seq<Dispute>, d: Dispute)
    requires UniqueIds(rs) && d.ticketId !in IdsOf(rs)
    ensures UniqueIds(rs + [d])
    ensures IdsOf(rs + [d]) == IdsOf(rs) + {d.ticketId}
  {
    var t := rs + [d];
    assert forall i :: 0 <= i < |rs| ==> t[i] == rs[i];
    assert forall i :: 0 <= i < |rs| ==> rs[i].ticketId in IdsOf(rs);
    forall x | x in IdsOf(t) ensures x in IdsOf(rs) + {d.ticketId} {
      var i :| 0 <= i < |t| && t[i].ticketId == x;
      if i < |rs| {
        assert rs[i].ticketId == x;
      }
    }
    assert t[|rs|] == d;
  }

  /** Records newest first, by creation time. */
  predicate SortedNewestFirst(s: seq<Dispute>) {
    forall i, j :: 0 <= i < j < |s| ==> s[i].createdAt >= s[j].createdAt
  }

  function InsertByCreated(d: Dispute, s: seq<Dispute>): (r: seq<Dispute>)
    requires SortedNewestFirst(s)
    ensures SortedNewestFirst(r)
    ensures forall k :: 0 <= k < |r| ==> r[k] == d || r[k] in s
    ensures multiset(r) == multiset(s) + multiset{d}
  {
    if s == [] || s[0].createdAt <= d.createdAt then [d] + s
    else
      var rest := InsertByCreated(d, s[1..]);
      assert s == [s[0]] + s[1..];
      [s[0]] + rest
  }

  /** `sort({ createdAt: -1 })`: the same records, newest first. */
  function SortNewestFirst(s: seq<Dispute>): (r: seq<Dispute>)
    ensures SortedNewestFirst(r)
    ensures multiset(r) == multiset(s)
  {
    if s == [] then []
    else
      assert s == [s[0]] + s[1..];
      InsertByCreated(s[0], SortNewestFirst(s[1..]))
  }

  /** The records that satisfy a query, in store order. */
  function Select(s: seq<Dispute>, matches: Dispute -> bool): (r: seq<Dispute>)
    ensures |r| <= |s|
    ensures forall x :: x in r <==> x in s && matches(x)
    ensures multiset(r) <= multiset(s)
  {
    if s == [] then []
    else
      assert s == [s[0]] + s[1..];
      (if matches(s[0]) then [s[0]] else []) + Select(s[1..], matches)
  }

  /** The validation pass of a bulk insertion: convert every draft, stopping at the first the schema refuses. */
  method ValidateBatch(drafts: seq<Draft>, now: int) returns (r: Option<seq<Dispute>>)
    ensures r == MaterialiseAll(drafts, now)
  {
    var docs: seq<Dispute> := [];
    var i := 0;
    while i < |drafts|
      invariant 0 <= i <= |drafts| && |docs| == i
      invariant forall k :: 0 <= k < i ==> Admissible(drafts[k]) && Materialise(drafts[k], now) == Some(docs[k])
    {
      var m := Materialise(drafts[i], now);
      if m.None? {
        assert !Admissible(drafts[i]);
        return None;
      }
      docs := docs + [m.value];
      i := i + 1;
    }
    var all := MaterialiseAll(drafts, now);
    assert all.Some? && |all.value| == |docs|;
    assert forall k :: 0 <= k < |docs| ==> all.value[k] == docs[k];
    assert all.value == docs;
    r := Some(docs);
  }

  /** The outcome of an ordered bulk insertion: how many records went in, and whether all did. */
  datatype InsertOutcome = InsertOutcome(inserted: nat, ok: bool)

  /** The outcome of an update by ticket id. */
  datatype PatchOutcome = NotFound | Rejected | Saved(dispute: Dispute)

  class DisputeStore {
    /** The stored records, in insertion order. */
    var records: seq<Dispute>

    /** Ticket ids are unique and every record passed the schema. */
    ghost predicate Valid()
      reads this
    {
      UniqueIds(records) && forall i :: 0 <= i < |records| ==> WellFormed(records[i])
    }

    constructor ()
      ensures Valid() && records == []
    {
      records := [];
    }

    /** The ticket ids among `ids` that some stored record already has. */
    function ExistingIds(ids: set<string>): (r: set<string>)
      reads this
      ensures r <= ids
      ensures forall id :: id in ids ==> (id in r <==> exists i :: 0 <= i < |records| && records[i].ticketId == id)
    {
      ids * IdsOf(records)
    }

    /** `findOne({ ticketId })`. */
    function FindOne(ticketId: string): (r: Option<Dispute>)
      reads this
      requires Valid()
      ensures r.Some? <==> ticketId in IdsOf(records)
      ensures r.Some? ==> r.value in records && r.value.ticketId == ticketId
    {
      var i := IndexOf(records, ticketId);
      if i < |records| then Some(records[i]) else None
    }

    /** `find(query).sort({ createdAt: -1 })`: the matching records, newest first. */
    function Find(matches: Dispute -> bool): (r: seq<Dispute>)
      reads this
      ensures SortedNewestFirst(r)
      ensures multiset(r) == multiset(Select(records, matches))
      ensures forall x :: x in r <==> x in records && matches(x)
    {
      var selected := Select(records, matches);
      var r := SortNewestFirst(selected);
      assert forall x :: x in r <==> x in multiset(r);
      assert forall x :: x in selected <==> x in multiset(selected);
      r
    }

    /**
     * `insertMany(drafts)`, ordered: the whole batch is validated first and a
     * schema failure inserts nothing; then the records go in one by one and
     * insertion stops at the first ticket id that is already taken.
     */
    method InsertMany(drafts: seq<Draft>, now: int) returns (outcome: InsertOutcome)
      requires Valid()
      modifies this
      ensures Valid()
      ensures MaterialiseAll(drafts, now).None? ==> outcome == InsertOutcome(0, false) && records == old(records)
      ensures MaterialiseAll(drafts, now).Some? ==>
        var docs := MaterialiseAll(drafts, now).value;
        && outcome.inserted <= |docs|
        && records == old(records) + docs[..outcome.inserted]
        && (outcome.ok <==> outcome.inserted == |docs|)
        && (outcome.inserted < |docs| ==> docs[outcome.inserted].ticketId in IdsOf(records))
        && StopsAt(old(records), docs, outcome.inserted)
    {
      var validated := ValidateBatch(drafts, now);
      if validated.None? {
        return InsertOutcome(0, false);
      }
      var docs := validated.value;
      assert forall k :: 0 <= k < |docs| ==> WellFormed(docs[k]) by {
        forall k | 0 <= k < |docs| ensures WellFormed(docs[k]) {
          assert Materialise(drafts[k], now) == Some(docs[k]);
        }
      }
      var rs, n := AppendUntilTaken(records, docs);
      records := rs;
      outcome := InsertOutcome(n, n == |docs|);
    }

    /** `create(draft)`: one record, refused by the schema or by a taken ticket id. */
    method Create(draft: Draft, now: int) returns (r: Option<Dispute>)
      requires Valid()
      modifies this
      ensures Valid()
      ensures r.Some? <==> Materialise(draft, now).Some? && Materialise(draft, now).value.ticketId !in IdsOf(old(records))
      ensures r.Some? ==> r == Materialise(draft, now) && records == old(records) + [r.value]
      ensures r.None? ==> records == old(records)
    {
      r := Materialise(draft, now);
      if r.Some? && r.value.ticketId !in IdsOf(records) {
        records := records + [r.value];
      } else {
        r := None;
      }
    }

    /** `findOne({ ticketId })`, assign the truthy fields of `p`, `save()`. */
    method Update(ticketId: string, p: Patch, now: int) returns (r: PatchOutcome)
      requires Valid()
      modifies this
      ensures Valid()
      ensures |records| == |old(records)|
      ensures r.NotFound? <==> ticketId !in IdsOf(old(records))
      ensures r.NotFound? ==> records == old(records)
      ensures r.Rejected? ==> records == old(records)
      ensures ticketId in IdsOf(old(records)) ==>
        (r.Rejected? <==> ApplyPatch(old(records)[IndexOf(old(records), ticketId)], p, now).None?)
      ensures r.Saved? ==> records == old(records)[IndexOf(old(records), ticketId) := r.dispute]
      ensures r.Saved? ==> exists i :: (0 <= i < |records| && old(records)[i].ticketId == ticketId
        && ApplyPatch(old(records)[i], p, now) == Some(r.dispute) && records == old(records)[i := r.dispute])
    {
      var i := IndexOf(records, ticketId);
      if i == |records| {
        return NotFound;
      }
      var d := ApplyPatch(records[i], p, now);
      if d.None? {
        return Rejected;
      }
      records := records[i := d.value];
      r := Saved(d.value);
    }
  }

  /**
   * Where an ordered insertion of `docs` after `rs` stops: each of the first
   * `n` documents has a ticket id not yet taken when its turn comes, and the
   * next one, if any, has a taken id.
   */
  ghost predicate StopsAt(rs: seq<Dispute>, docs: seq<Dispute>, n: nat) {
    && n <= |docs|
    && (forall k :: 0 <= k < n ==> docs[k].ticketId !in IdsOf(rs + docs[..k]))
    && (n < |docs| ==> docs[n].ticketId in IdsOf(rs + docs[..n]))
  }

  /** The stopping point of an ordered insertion is determined by the records and the batch. */
  lemma StopsAtUnique(rs: seq<Dispute>, docs: seq<Dispute>, n: nat, m: nat)
    requires StopsAt(rs, docs, n) && StopsAt(rs, docs, m)
    ensures n == m
  {
  }

  /**
   * The insertion pass of an ordered bulk insertion: append the documents in
   * order and stop at the first one whose ticket id is already taken.
   */
  method AppendUntilTaken(rs: seq<Dispute>, docs: seq<Dispute>) returns (r: seq<Dispute>, n: nat)
    requires UniqueIds(rs) && forall i :: 0 <= i < |rs| ==> WellFormed(rs[i])
    requires forall k :: 0 <= k < |docs| ==> WellFormed(docs[k])
    ensures n <= |docs| && r == rs + docs[..n]
    ensures UniqueIds(r) && forall i :: 0 <= i < |r| ==> WellFormed(r[i])
    ensures n < |docs| ==> docs[n].ticketId in IdsOf(r)
    ensures StopsAt(rs, docs, n)
  {
    r, n := rs, 0;
    while n < |docs| && docs[n].ticketId !in IdsOf(r)
      invariant 0 <= n <= |docs|
      invariant r == rs + docs[..n]
      invariant forall k :: 0 <= k < n ==> docs[k].ticketId !in IdsOf(rs + docs[..k])
      invariant UniqueIds(r)
      invariant forall i :: 0 <= i < |r| ==> WellFormed(r[i])
    {
      assert docs[..n + 1] == docs[..n] + [docs[n]];
      AppendFresh(r, docs[n]);
      r := r + [docs[n]];
      n := n + 1;
    }
  }

  /** The position of the record with `ticketId`, or `|rs|` when there is none. */
  function IndexOf(rs: seq<Dispute>, ticketId: string): (i: nat)
    ensures i <= |rs|
    ensures i < |rs| ==> rs[i].ticketId == ticketId
    ensures i == |rs| <==> ticketId !in IdsOf(rs)
  {
    if rs == [] then 0
    else if rs[0].ticketId == ticketId then 0
    else
      assert forall k :: 1 <= k < |rs| ==> rs[k] == rs[1..][k - 1];
      assert IdsOf(rs) == {rs[0].ticketId} + IdsOf(rs[1..]);
      1 + IndexOf(rs[1..], ticketId)
  }
}
