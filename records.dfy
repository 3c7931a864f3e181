// The record store's pure transformations: the search filter, create,
// update-by-id and publish-by-id, and the breadcrumb lookup. The root
// component applies these to its state (see module AppState).

module ApiRecords {
  import opened ApiTypes
  import opened Text

  // ---------------------------------------------------------------------
  // Search filter

  /** A record matches a query when the lower-cased query occurs in its
      lower-cased name or in its lower-cased business. */
  predicate Matches(a: Api, query: string) {
    Includes(Lower(a.name), Lower(query)) || Includes(Lower(a.business), Lower(query))
  }

  /** The filtered view: the matching records, in store order. */
  function Filter(apis: seq<Api>, query: string): (r: seq<Api>)
    ensures |r| <= |apis|
    ensures forall i :: 0 <= i < |r| ==> Matches(r[i], query)
  {
    if apis == [] then []
    else if Matches(apis[0], query) then [apis[0]] + Filter(apis[1..], query)
    else Filter(apis[1..], query)
  }

  /** The filter keeps each matching record as many times as the store holds
      it, and drops every other record. */
  lemma {:induction false} FilterCount(apis: seq<Api>, query: string, a: Api)
    ensures multiset(Filter(apis, query))[a] == if Matches(a, query) then multiset(apis)[a] else 0
  {
    if apis != [] {
      FilterCount(apis[1..], query, a);
      assert apis == [apis[0]] + apis[1..];
    }
  }

  /** A record is in the filtered view iff it is in the store and matches. */
  lemma FilterMembership(apis: seq<Api>, query: string, a: Api)
    ensures a in Filter(apis, query) <==> a in apis && Matches(a, query)
  {
    FilterCount(apis, query, a);
  }

  /** `xs` is `ys` with some elements dropped and the rest in the same order. */
  predicate Subsequence(xs: seq<Api>, ys: seq<Api>)
    decreases |ys|
  {
    || xs == []
    || (ys != [] && ((xs[0] == ys[0] && Subsequence(xs[1..], ys[1..])) || Subsequence(xs, ys[1..])))
  }

  /** The filtered view keeps store order. */
  lemma {:induction false} FilterKeepsOrder(apis: seq<Api>, query: string)
    ensures Subsequence(Filter(apis, query), apis)
  {
    if apis != [] {
      FilterKeepsOrder(apis[1..], query);
      var r := Filter(apis, query);
      if Matches(apis[0], query) {
        assert r[0] == apis[0] && r[1..] == Filter(apis[1..], query);
      }
    }
  }

  /** An empty query shows the whole store, unchanged and in order. */
  lemma {:induction false} FilterEmptyQuery(apis: seq<Api>)
    ensures Filter(apis, "") == apis
  {
    if apis != [] {
      IncludesEmpty(Lower(apis[0].name));
      FilterEmptyQuery(apis[1..]);
    }
  }

  /** The filter ignores the case of the query. */
  lemma {:induction false} FilterIgnoresQueryCase(apis: seq<Api>, q1: string, q2: string)
    requires Lower(q1) == Lower(q2)
    ensures Filter(apis, q1) == Filter(apis, q2)
  {
    if apis != [] {
      FilterIgnoresQueryCase(apis[1..], q1, q2);
    }
  }

  /** Lower-casing the query beforehand does not change the view. */
  lemma FilterLowerQuery(apis: seq<Api>, query: string)
    ensures Filter(apis, Lower(query)) == Filter(apis, query)
  {
    LowerIdempotent(query);
    FilterIgnoresQueryCase(apis, Lower(query), query);
  }

  // ---------------------------------------------------------------------
  // Create

  /** The record that create builds: the submitted form fields, with the
      generated id, status draft, and the two clock readings. */
  function NewRecord(v: FormValues, id: string, createdAt: nat, updatedAt: nat): (a: Api)
    ensures FormOf(a) == v
    ensures a.id == id && a.status == Draft
    ensures a.createdAt == createdAt && a.updatedAt == updatedAt
  {
    Api(id, v.name, v.description, v.business, v.httpMethod, Draft, createdAt, updatedAt)
  }

  /** Create appends one new record at the end of the store. */
  function Create(apis: seq<Api>, v: FormValues, id: string, createdAt: nat, updatedAt: nat): (r: seq<Api>)
    ensures |r| == |apis| + 1
    ensures forall i :: 0 <= i < |apis| ==> r[i] == apis[i]
    ensures FormOf(r[|apis|]) == v && r[|apis|].status == Draft && r[|apis|].id == id
    ensures r[|apis|].createdAt == createdAt && r[|apis|].updatedAt == updatedAt
  {
    apis + [NewRecord(v, id, createdAt, updatedAt)]
  }

  // ---------------------------------------------------------------------
  // Update

  /** A record with the submitted form fields and a fresh update time. */
  function Edited(a: Api, v: FormValues, now: nat): Api {
    a.(name := v.name, description := v.description, business := v.business,
       httpMethod := v.httpMethod, updatedAt := now)
  }

  /** Update: every record whose id is `id` takes the submitted form fields and
      update time and keeps its id, status and creation time; every other
      record is unchanged; length and order are kept. */
  function Update(apis: seq<Api>, id: string, v: FormValues, now: nat): (r: seq<Api>)
    ensures |r| == |apis|
    ensures forall i :: 0 <= i < |apis| ==>
      r[i].id == apis[i].id && r[i].status == apis[i].status && r[i].createdAt == apis[i].createdAt
    ensures forall i :: 0 <= i < |apis| && apis[i].id != id ==> r[i] == apis[i]
    ensures forall i :: 0 <= i < |apis| && apis[i].id == id ==> FormOf(r[i]) == v && r[i].updatedAt == now
  {
    if apis == [] then []
    else [if apis[0].id == id then Edited(apis[0], v, now) else apis[0]] + Update(apis[1..], id, v, now)
  }

  /** Updating an id that no record has leaves the store identical. */
  lemma UpdateAbsentId(apis: seq<Api>, id: string, v: FormValues, now: nat)
    requires forall i :: 0 <= i < |apis| ==> apis[i].id != id
    ensures Update(apis, id, v, now) == apis
  {
  }

  // ---------------------------------------------------------------------
  // Publish

  /** Publish: every record whose id is `id` becomes published with a fresh
      update time and keeps all its other fields; every other record is
      unchanged; length and order are kept. */
  function Publish(apis: seq<Api>, id: string, now: nat): (r: seq<Api>)
    ensures |r| == |apis|
    ensures forall i :: 0 <= i < |apis| && apis[i].id != id ==> r[i] == apis[i]
    ensures forall i :: 0 <= i < |apis| && apis[i].id == id ==>
      r[i].status == Published && r[i].updatedAt == now &&
      r[i].id == id && FormOf(r[i]) == FormOf(apis[i]) && r[i].createdAt == apis[i].createdAt
  {
    if apis == [] then []
    else [if apis[0].id == id then apis[0].(status := Published, updatedAt := now) else apis[0]]
         + Publish(apis[1..], id, now)
  }

  /** Publishing twice is publishing once at the later time: the status stays
      published and only the update time moves. */
  lemma {:induction false} PublishTwice(apis: seq<Api>, id: string, t1: nat, t2: nat)
    ensures Publish(Publish(apis, id, t1), id, t2) == Publish(apis, id, t2)
  {
    if apis != [] {
      PublishTwice(apis[1..], id, t1, t2);
    }
  }

  /** Publishing an id that no record has leaves the store identical. */
  lemma PublishAbsentId(apis: seq<Api>, id: string, now: nat)
    requires forall i :: 0 <= i < |apis| ==> apis[i].id != id
    ensures Publish(apis, id, now) == apis
  {
  }

  // ---------------------------------------------------------------------
  // Status monotonicity over any sequence of operations

  /** `after` keeps every record of `before` at its position, with the same id
      and creation time, and a published record is still published. */
  predicate NeverReverts(before: seq<Api>, after: seq<Api>) {
    && |before| <= |after|
    && forall i :: 0 <= i < |before| ==>
         after[i].id == before[i].id && after[i].createdAt == before[i].createdAt &&
         (before[i].status == Published ==> after[i].status == Published)
  }

  /** The store operations the root component performs. */
  datatype Action =
    | CreateAction(v: FormValues, id: string, createdAt: nat, updatedAt: nat)
    | UpdateAction(targetId: string, edit: FormValues, now: nat)
    | PublishAction(publishId: string, at: nat)

  function Apply(apis: seq<Api>, act: Action): seq<Api> {
    match act
    case CreateAction(v, id, c, u) => Create(apis, v, id, c, u)
    case UpdateAction(id, v, now) => Update(apis, id, v, now)
    case PublishAction(id, now) => Publish(apis, id, now)
  }

  function Run(apis: seq<Api>, acts: seq<Action>): seq<Api>
    decreases |acts|
  {
    if acts == [] then apis else Run(Apply(apis, acts[0]), acts[1..])
  }

  /** Every single operation keeps records in place and never unpublishes. */
  lemma ApplyNeverReverts(apis: seq<Api>, act: Action)
    ensures NeverReverts(apis, Apply(apis, act))
  {
  }

  /** No sequence of operations removes a record, moves it, changes its id or
      creation time, or turns published back into draft. */
  lemma {:induction false} RunNeverReverts(apis: seq<Api>, acts: seq<Action>)
    ensures NeverReverts(apis, Run(apis, acts))
    decreases |acts|
  {
    if acts != [] {
      var next := Apply(apis, acts[0]);
      ApplyNeverReverts(apis, acts[0]);
      RunNeverReverts(next, acts[1..]);
    }
  }

  /** Operations never shrink the store: its length only grows, by exactly
      the number of creates. */
  function CreateCount(acts: seq<Action>): nat
    decreases |acts|
  {
    if acts == [] then 0 else (if acts[0].CreateAction? then 1 else 0) + CreateCount(acts[1..])
  }

  lemma {:induction false} RunLength(apis: seq<Api>, acts: seq<Action>)
    ensures |Run(apis, acts)| == |apis| + CreateCount(acts)
    decreases |acts|
  {
    if acts != [] {
      RunLength(Apply(apis, acts[0]), acts[1..]);
    }
  }

  // ---------------------------------------------------------------------
  // Breadcrumb

  /** The navigation menu, in display order. */
  const MenuItems: seq<MenuItem> := [
    MenuItem("apis", "API Management"),
    MenuItem("datasources", "Data Sources"),
    MenuItem("permissions", "Permissions"),
    MenuItem("variables", "Global Variables"),
    MenuItem("history", "API History"),
    MenuItem("clients", "Client Management")
  ]

  /** The first item whose key is `key`, if any. */
  function FindByKey(items: seq<MenuItem>, key: string): (r: Option<MenuItem>)
    ensures r.None? <==> forall i :: 0 <= i < |items| ==> items[i].key != key
    ensures r.Some? ==> exists i :: 0 <= i < |items| && items[i] == r.value && items[i].key == key &&
                                    forall j :: 0 <= j < i ==> items[j].key != key
  {
    if items == [] then None
    else if items[0].key == key then Some(items[0])
    else
      var r := FindByKey(items[1..], key);
      assert r.Some? ==> exists i :: 1 <= i < |items| && items[i] == r.value && items[i].key == key &&
                                    forall j :: 0 <= j < i ==> items[j].key != key by {
        if r.Some? {
          var i :| 0 <= i < |items[1..]| && items[1..][i] == r.value && items[1..][i].key == key &&
                   forall j :: 0 <= j < i ==> items[1..][j].key != key;
          assert forall j :: 1 <= j < i + 1 ==> items[j].key == items[1..][j - 1].key;
          assert items[i + 1] == r.value;
        }
      }
      r
  }

  /** The breadcrumb trail: "Home", then the label of the selected menu item,
      or "Unknown" when no item has that key or its label is empty. */
  function Breadcrumb(items: seq<MenuItem>, selected: string): (r: seq<string>)
    ensures |r| == 2 && r[0] == "Home"
    ensures (forall i :: 0 <= i < |items| ==> items[i].key != selected) ==> r[1] == "Unknown"
    ensures forall i :: (0 <= i < |items| && items[i].key == selected && items[i].caption != "" &&
                         forall j :: 0 <= j < i ==> items[j].key != selected) ==> r[1] == items[i].caption
    ensures forall i :: (0 <= i < |items| && items[i].key == selected && items[i].caption == "" &&
                         forall j :: 0 <= j < i ==> items[j].key != selected) ==> r[1] == "Unknown"
  {
    var current := FindByKey(items, selected);
    ["Home", if current.Some? && current.value.caption != "" then current.value.caption else "Unknown"]
  }

  /** Each entry of the navigation menu shows its own label. */
  lemma MenuBreadcrumbs(i: nat)
    requires i < |MenuItems|
    ensures Breadcrumb(MenuItems, MenuItems[i].key) == ["Home", MenuItems[i].caption]
  {
    if i == 0 {} else if i == 1 {} else if i == 2 {} else if i == 3 {} else if i == 4 {} else {}
  }

  /** A key that is not on the menu shows "Unknown". */
  lemma UnknownBreadcrumb(selected: string)
    requires forall i :: 0 <= i < |MenuItems| ==> MenuItems[i].key != selected
    ensures Breadcrumb(MenuItems, selected) == ["Home", "Unknown"]
  {
  }
}
