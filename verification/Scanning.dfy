/** What both delivery sources do with the items they find (src/source.rs, src/http_source.rs). */
module Scanning {
  import opened Wrappers
  import opened Model
  import opened Ordering

  datatype Place = PageItem(page: nat, item: nat) | Manifest(path: string)

  datatype SourceIssue = SourceIssue(place: Place, complaint: Complaint)

  datatype SourceScan = SourceScan(deliveries: seq<Delivery>, issues: seq<SourceIssue>)

  /** An item as it was found: refused on its own account, or a delivery on offer. */
  datatype Seen =
    | Refused(place: Place, complaint: Complaint)
    | Offered(place: Place, delivery: Delivery)

  /** Everything on offer under one id, in the order found. */
  function Offers(seen: seq<Seen>, id: string): seq<Delivery> {
    if seen == [] then []
    else
      var front, last := Offers(seen[..|seen| - 1], id), seen[|seen| - 1];
      if last.Offered? && last.delivery.id == id then front + [last.delivery] else front
  }

  /** One complaint for each refused item, and one for each further use of an id. */
  function Complaints(seen: seq<Seen>): seq<SourceIssue> {
    if seen == [] then []
    else
      var before, last := seen[..|seen| - 1], seen[|seen| - 1];
      match last
      case Refused(place, complaint) => Complaints(before) + [SourceIssue(place, complaint)]
      case Offered(place, d) =>
        if Offers(before, d.id) == [] then Complaints(before)
        else Complaints(before) + [SourceIssue(place, DuplicateId)]
  }

  /** The ids used more than once. */
  function Repeated(seen: seq<Seen>): set<string> {
    if seen == [] then {}
    else
      var before, last := seen[..|seen| - 1], seen[|seen| - 1];
      if last.Offered? && Offers(before, last.delivery.id) != [] then Repeated(before) + {last.delivery.id}
      else Repeated(before)
  }

  /** A delivery is listed exactly when it is the only one on offer under its id. */
  ghost predicate IsScan(seen: seq<Seen>, scan: SourceScan) {
    && scan.issues == Complaints(seen)
    && (forall d :: d in scan.deliveries <==> Offers(seen, d.id) == [d])
    && OldestFirst(scan.deliveries)
  }

  function SortKey(d: Delivery): Key {
    (if d.createdAt.Some? then d.createdAt.value else 0, d.id)
  }

  /** Created earlier, where a delivery without a time stamp counts as the earliest; ids settle ties. */
  predicate CreatedBefore(a: Delivery, b: Delivery) {
    var (x, y) := (if a.createdAt.Some? then a.createdAt.value else 0, if b.createdAt.Some? then b.createdAt.value else 0);
    x < y || (x == y && StringLess(a.id, b.id))
  }

  predicate OldestFirst(s: seq<Delivery>) {
    forall i, j | 0 <= i < j < |s| :: CreatedBefore(s[i], s[j])
  }

  lemma OffersStep(seen: seq<Seen>, x: Seen, id: string)
    ensures Offers(seen + [x], id) ==
            if x.Offered? && x.delivery.id == id then Offers(seen, id) + [x.delivery] else Offers(seen, id)
  {
    assert (seen + [x])[..|seen|] == seen;
  }

  lemma ComplaintsStep(seen: seq<Seen>, x: Seen)
    ensures Complaints(seen + [x]) == Complaints(seen) +
            if x.Refused? then [SourceIssue(x.place, x.complaint)]
            else if Offers(seen, x.delivery.id) == [] then []
            else [SourceIssue(x.place, DuplicateId)]
    ensures Repeated(seen + [x]) ==
            Repeated(seen) + if x.Offered? && Offers(seen, x.delivery.id) != [] then {x.delivery.id} else {}
  {
    assert (seen + [x])[..|seen|] == seen;
  }

  lemma {:induction false} OffersAreOfId(seen: seq<Seen>, id: string)
    ensures forall d | d in Offers(seen, id) :: d.id == id
  {
    if seen != [] {
      OffersAreOfId(seen[..|seen| - 1], id);
    }
  }

  // ------------------------------------------------------- item by item

  /** The only offer under its id is what is on offer there. */
  lemma {:induction false} OnlyOffer(seen: seq<Seen>, i: nat)
    requires i < |seen| && seen[i].Offered?
    requires forall j | 0 <= j < |seen| && j != i && seen[j].Offered? :: seen[j].delivery.id != seen[i].delivery.id
    ensures Offers(seen, seen[i].delivery.id) == [seen[i].delivery]
  {
    var front := seen[..|seen| - 1];
    if i == |front| {
      NoOffer(front, seen[i].delivery.id);
    } else {
      OnlyOffer(front, i);
    }
  }

  lemma {:induction false} NoOffer(seen: seq<Seen>, id: string)
    requires forall j | 0 <= j < |seen| && seen[j].Offered? :: seen[j].delivery.id != id
    ensures Offers(seen, id) == []
  {
    if seen != [] {
      NoOffer(seen[..|seen| - 1], id);
    }
  }

  lemma {:induction false} OfferedSomewhere(seen: seq<Seen>, id: string, d: Delivery)
    requires d in Offers(seen, id)
    ensures exists i :: 0 <= i < |seen| && seen[i].Offered? && seen[i].delivery == d && d.id == id
  {
    var front, last := seen[..|seen| - 1], seen[|seen| - 1];
    if d in Offers(front, id) {
      OfferedSomewhere(front, id, d);
      var i :| 0 <= i < |front| && front[i].Offered? && front[i].delivery == d;
      assert seen[i] == front[i];
    } else {
      assert seen[|seen| - 1].Offered?;
    }
  }

  lemma {:induction false} TwoOffers(seen: seq<Seen>, i: nat, j: nat)
    requires i < j < |seen| && seen[i].Offered? && seen[j].Offered? && seen[i].delivery.id == seen[j].delivery.id
    ensures |Offers(seen, seen[i].delivery.id)| >= 2
    ensures SourceIssue(seen[j].place, DuplicateId) in Complaints(seen)
  {
    var front := seen[..|seen| - 1];
    if j == |front| {
      SomeOffer(front, i);
    } else {
      TwoOffers(front, i, j);
    }
  }

  lemma {:induction false} SomeOffer(seen: seq<Seen>, i: nat)
    requires i < |seen| && seen[i].Offered?
    ensures |Offers(seen, seen[i].delivery.id)| >= 1
  {
    var front := seen[..|seen| - 1];
    if i < |front| {
      SomeOffer(front, i);
    }
  }

  lemma {:induction false} RefusedIsReported(seen: seq<Seen>, i: nat)
    requires i < |seen| && seen[i].Refused?
    ensures SourceIssue(seen[i].place, seen[i].complaint) in Complaints(seen)
  {
    var front := seen[..|seen| - 1];
    if i < |front| {
      RefusedIsReported(front, i);
    }
  }

  /** What a scan makes of one item, seen among all the others. */
  lemma ItemByItem(seen: seq<Seen>, scan: SourceScan, i: nat)
    requires IsScan(seen, scan) && i < |seen|
    ensures seen[i].Refused? ==> SourceIssue(seen[i].place, seen[i].complaint) in scan.issues
    ensures seen[i].Offered?
            && (forall j | 0 <= j < |seen| && j != i && seen[j].Offered? :: seen[j].delivery.id != seen[i].delivery.id) ==>
              seen[i].delivery in scan.deliveries
    ensures forall j | i < j < |seen| && seen[i].Offered? && seen[j].Offered? && seen[i].delivery.id == seen[j].delivery.id ::
              && SourceIssue(seen[j].place, DuplicateId) in scan.issues
              && forall d | d in scan.deliveries :: d.id != seen[i].delivery.id
  {
    hide Offers, Complaints, OldestFirst;
    if seen[i].Refused? {
      RefusedIsReported(seen, i);
    } else if forall j | 0 <= j < |seen| && j != i && seen[j].Offered? :: seen[j].delivery.id != seen[i].delivery.id {
      OnlyOffer(seen, i);
    }
    forall j | i < j < |seen| && seen[i].Offered? && seen[j].Offered? && seen[i].delivery.id == seen[j].delivery.id
      ensures SourceIssue(seen[j].place, DuplicateId) in scan.issues
      ensures forall d | d in scan.deliveries :: d.id != seen[i].delivery.id
    {
      TwoOffers(seen, i, j);
    }
  }

  // -------------------------------------------------------------- accumulating

  /** The variables of the loop: first delivery of each id, repeated ids, complaints so far. */
  datatype Tally = Tally(byId: map<string, Delivery>, conflicts: set<string>, issues: seq<SourceIssue>)

  ghost predicate Filed(t: Tally, id: string, offers: seq<Delivery>) {
    && (id in t.byId <==> offers != [])
    && (id in t.byId ==> t.byId[id].id == id && t.byId[id] == offers[0])
    && (id in t.conflicts <==> |offers| >= 2)
  }

  ghost predicate IsTally(seen: seq<Seen>, t: Tally) {
    && (forall id :: Filed(t, id, Offers(seen, id)))
    && t.issues == Complaints(seen) && t.conflicts == Repeated(seen)
    && |t.issues| + |t.byId| == |seen|
  }

  function Add(t: Tally, x: Seen): Tally {
    match x
    case Refused(place, complaint) => t.(issues := t.issues + [SourceIssue(place, complaint)])
    case Offered(place, d) =>
      if d.id in t.byId then
        t.(conflicts := t.conflicts + {d.id}, issues := t.issues + [SourceIssue(place, DuplicateId)])
      else t.(byId := t.byId[d.id := d])
  }

  lemma EmptyTally()
    ensures IsTally([], Tally(map[], {}, []))
  {
  }

  lemma TallyStep(seen: seq<Seen>, t: Tally, x: Seen)
    requires IsTally(seen, t)
    ensures IsTally(seen + [x], Add(t, x))
  {
    hide Offers, Complaints, Repeated, Filed;
    ComplaintsStep(seen, x);
    forall id ensures Filed(Add(t, x), id, Offers(seen + [x], id)) {
      assert Filed(t, id, Offers(seen, id));
      OffersStep(seen, x, id);
      FiledStep(t, x, id, Offers(seen, id));
    }
    if x.Offered? {
      assert Filed(t, x.delivery.id, Offers(seen, x.delivery.id));
      assert x.delivery.id in t.byId <==> Offers(seen, x.delivery.id) != [] by {
        FiledMeans(t, x.delivery.id, Offers(seen, x.delivery.id));
      }
      assert x.delivery.id !in t.byId ==> |Add(t, x).byId| == |t.byId| + 1;
    }
  }

  lemma FiledMeans(t: Tally, id: string, offers: seq<Delivery>)
    requires Filed(t, id, offers)
    ensures id in t.byId <==> offers != []
    ensures id in t.byId ==> t.byId[id].id == id && t.byId[id] == offers[0]
    ensures id in t.conflicts <==> |offers| >= 2
  {
  }

  lemma FiledStep(t: Tally, x: Seen, id: string, offers: seq<Delivery>)
    requires Filed(t, id, offers)
    ensures Filed(Add(t, x), id, if x.Offered? && x.delivery.id == id then offers + [x.delivery] else offers)
  {
  }

  /** The deliveries that survive: repeated ids are dropped and the rest is sorted. */
  method Finish(ghost seen: seq<Seen>, t: Tally) returns (scan: SourceScan)
    requires IsTally(seen, t)
    ensures IsScan(seen, scan)
    ensures |scan.deliveries| == |t.byId| - |t.conflicts|
  {
    hide Offers, Complaints, Repeated, KeyLess, Sort, Sorted;
    var kept := t.byId - t.conflicts;
    KeptAreSingle(seen, t, kept);
    var keys := Keys(kept);
    var order := Sort(keys);
    SortSorts(keys);
    SortKeep(kept, keys);
    var deliveries := seq(|order|, i requires 0 <= i < |order| => kept[order[i].1]);
    InOrder(kept, order, deliveries);
    forall d ensures d in deliveries <==> Offers(seen, d.id) == [d] {
      if Offers(seen, d.id) == [d] {
        assert kept[d.id] == d && SortKey(d) in order;
        var i :| 0 <= i < |order| && order[i] == SortKey(d);
        assert deliveries[i] == d;
      }
    }
    scan := SourceScan(deliveries, t.issues);
  }

  lemma KeptAreSingle(seen: seq<Seen>, t: Tally, kept: map<string, Delivery>)
    requires IsTally(seen, t) && kept == t.byId - t.conflicts
    ensures |kept| == |t.byId| - |t.conflicts|
    ensures forall id | id in kept :: kept[id].id == id
    ensures forall d: Delivery :: d.id in kept && kept[d.id] == d <==> Offers(seen, d.id) == [d]
  {
    hide Offers, Complaints, Repeated, Filed;
    forall id
      ensures id in t.byId <==> Offers(seen, id) != []
      ensures id in t.byId ==> t.byId[id].id == id && t.byId[id] == Offers(seen, id)[0]
      ensures id in t.conflicts <==> |Offers(seen, id)| >= 2
    {
      assert Filed(t, id, Offers(seen, id));
      FiledMeans(t, id, Offers(seen, id));
    }
    assert t.conflicts <= t.byId.Keys && kept.Keys == t.byId.Keys - t.conflicts;
  }

  method Keys(kept: map<string, Delivery>) returns (keys: seq<Key>)
    requires forall id | id in kept :: kept[id].id == id
    ensures |keys| == |kept|
    ensures forall k :: k in keys <==> k.1 in kept && k == SortKey(kept[k.1])
    ensures forall i, j | 0 <= i < j < |keys| :: keys[i] != keys[j]
  {
    keys := [];
    var rest := kept.Keys;
    while rest != {}
      invariant rest <= kept.Keys && |keys| + |rest| == |kept|
      invariant forall k :: k in keys <==> k.1 in kept.Keys - rest && k == SortKey(kept[k.1])
      invariant forall i, j | 0 <= i < j < |keys| :: keys[i] != keys[j]
      decreases rest
    {
      var id :| id in rest;
      keys := keys + [SortKey(kept[id])];
      rest := rest - {id};
    }
  }

  lemma SortKeep(kept: map<string, Delivery>, keys: seq<Key>)
    requires forall k :: k in keys <==> k.1 in kept && k == SortKey(kept[k.1])
    requires forall i, j | 0 <= i < j < |keys| :: keys[i] != keys[j]
    ensures forall k :: k in Sort(keys) <==> k.1 in kept && k == SortKey(kept[k.1])
    ensures |Sort(keys)| == |keys|
    ensures forall i, j | 0 <= i < j < |keys| :: Sort(keys)[i] != Sort(keys)[j]
  {
    hide Sort;
    SortKeeps(keys);
  }

  lemma InOrder(kept: map<string, Delivery>, order: seq<Key>, deliveries: seq<Delivery>)
    requires Sorted(order) && |deliveries| == |order|
    requires forall i, j | 0 <= i < j < |order| :: order[i] != order[j]
    requires forall i | 0 <= i < |order| :: order[i].1 in kept && order[i] == SortKey(kept[order[i].1]) && deliveries[i] == kept[order[i].1]
    ensures OldestFirst(deliveries)
  {
    hide StringLess;
    forall i, j | 0 <= i < j < |deliveries| ensures CreatedBefore(deliveries[i], deliveries[j]) {
      KeyOrder(order[i], order[j]);
    }
  }

  // ------------------------------------------------------------------- theorems

  /** Every item seen is a listed delivery, one of the conflicting ids, or a complaint. */
  lemma {:induction false} ScanConserves(seen: seq<Seen>, scan: SourceScan)
    requires IsScan(seen, scan)
    ensures |seen| == |scan.deliveries| + |Repeated(seen)| + |scan.issues|
  {
    var t := TallyOf(seen);
    var kept := t.byId - t.conflicts;
    hide Offers, Complaints, Repeated, OldestFirst;
    KeptAreSingle(seen, t, kept);
    DeliveriesAreDistinct(scan.deliveries);
    CountDeliveries(scan.deliveries, kept);
  }

  /** The tally that the loop arrives at. */
  ghost function TallyOf(seen: seq<Seen>): (t: Tally)
    ensures IsTally(seen, t)
  {
    if seen == [] then
      EmptyTally();
      Tally(map[], {}, [])
    else
      var before, x := seen[..|seen| - 1], seen[|seen| - 1];
      TallyStep(before, TallyOf(before), x);
      assert before + [x] == seen;
      Add(TallyOf(before), x)
  }

  lemma DeliveriesAreDistinct(s: seq<Delivery>)
    requires OldestFirst(s)
    ensures forall i, j | 0 <= i < j < |s| :: s[i] != s[j]
  {
    hide StringLess;
    forall i, j | 0 <= i < j < |s| ensures s[i] != s[j] {
      KeyOrder(SortKey(s[i]), SortKey(s[j]));
    }
  }

  lemma {:induction false} CountDeliveries(s: seq<Delivery>, kept: map<string, Delivery>)
    requires forall i, j | 0 <= i < j < |s| :: s[i] != s[j]
    requires forall d :: d in s <==> d.id in kept && kept[d.id] == d
    requires forall id | id in kept :: kept[id].id == id
    ensures |s| == |kept|
  {
    assert forall id | id in kept :: kept[id] in s;
    if s == [] {
      assert kept.Keys == {};
    } else {
      var d := s[0];
      var rest := kept - {d.id};
      assert d in s && kept.Keys == rest.Keys + {d.id};
      assert s == [d] + s[1..];
      CountDeliveries(s[1..], rest);
    }
  }

  /** No id is listed twice, as the receiving side requires. */
  lemma ListedOnce(seen: seq<Seen>, scan: SourceScan)
    requires IsScan(seen, scan)
    ensures forall i, j | 0 <= i < j < |scan.deliveries| :: scan.deliveries[i].id != scan.deliveries[j].id
  {
    hide KeyLess, Offers;
    DeliveriesAreDistinct(scan.deliveries);
    forall i, j | 0 <= i < j < |scan.deliveries| ensures scan.deliveries[i].id != scan.deliveries[j].id {
      var (a, b) := (scan.deliveries[i], scan.deliveries[j]);
      assert a in scan.deliveries && b in scan.deliveries;
      assert Offers(seen, a.id) == [a] && Offers(seen, b.id) == [b];
      assert a != b;
    }
  }

  /** The items alone determine the outcome, down to the order. */
  lemma ScanIsUnique(seen: seq<Seen>, a: SourceScan, b: SourceScan)
    requires IsScan(seen, a) && IsScan(seen, b)
    ensures a == b
  {
    hide OldestFirst, Offers, Complaints;
    assert forall d :: d in a.deliveries <==> d in b.deliveries;
    OrderIsUnique(a.deliveries, b.deliveries);
  }

  lemma {:induction false} OrderIsUnique(a: seq<Delivery>, b: seq<Delivery>)
    requires OldestFirst(a) && OldestFirst(b) && forall d :: d in a <==> d in b
    ensures a == b
  {
    hide StringLess;
    assert (a != [] ==> a[0] in b) && (b != [] ==> b[0] in a);
    if a != [] && b != [] {
      FirstIsLeast(a, b);
      DeliveriesAreDistinct(a);
      DeliveriesAreDistinct(b);
      TailMembers(a);
      TailMembers(b);
      assert a == [a[0]] + a[1..] && b == [b[0]] + b[1..];
      OrderIsUnique(a[1..], b[1..]);
    }
  }

  lemma TailMembers(s: seq<Delivery>)
    requires s != [] && forall i, j | 0 <= i < j < |s| :: s[i] != s[j]
    ensures forall d :: d in s[1..] <==> d in s && d != s[0]
  {
  }

  lemma FirstIsLeast(a: seq<Delivery>, b: seq<Delivery>)
    requires OldestFirst(a) && OldestFirst(b) && a != [] && b != [] && forall d :: d in a <==> d in b
    ensures a[0] == b[0]
  {
    hide StringLess;
    assert a[0] in b && b[0] in a;
    var i :| 0 <= i < |b| && b[i] == a[0];
    var j :| 0 <= j < |a| && a[j] == b[0];
    if i > 0 && j > 0 {
      KeyOrder(SortKey(a[0]), SortKey(b[0]));
    }
  }
}
