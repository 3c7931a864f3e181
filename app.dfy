// The root component's state and its event handlers. Each handler updates
// the component's state fields; the record transformations themselves are
// the pure functions of module ApiRecords. Clock readings and generated ids
// are passed in as parameters.

module AppState {
  import opened ApiTypes
  import opened Text
  import opened ApiRecords

  class App {
    var apis: seq<Api>
    var searchQuery: string
    var formVisible: bool
    var editingApi: Option<Api>
    var selectedMenu: string

    /** A record is only ever being edited while the form is open. */
    ghost predicate Valid()
      reads this
    {
      editingApi.Some? ==> formVisible
    }

    /** The initial state: no records, empty query, form closed, nothing
        being edited, the API management page selected. */
    constructor ()
      ensures Valid()
      ensures apis == [] && searchQuery == "" && !formVisible && editingApi == None
      ensures selectedMenu == "apis"
    {
      apis := [];
      searchQuery := "";
      formVisible := false;
      editingApi := None;
      selectedMenu := "apis";
    }

    /** The records shown in the table: the matching records, in store order. */
    function FilteredApis(): (r: seq<Api>)
      reads this
      ensures Subsequence(r, apis)
      ensures forall a :: a in r <==> a in apis && Matches(a, searchQuery)
      ensures forall a :: multiset(r)[a] == if Matches(a, searchQuery) then multiset(apis)[a] else 0
      ensures searchQuery == "" ==> r == apis
    {
      FilterKeepsOrder(apis, searchQuery);
      FilterEmptyQuery(apis);
      assert forall a :: multiset(Filter(apis, searchQuery))[a] ==
                         (if Matches(a, searchQuery) then multiset(apis)[a] else 0) by {
        forall a ensures multiset(Filter(apis, searchQuery))[a] ==
                         (if Matches(a, searchQuery) then multiset(apis)[a] else 0) {
          FilterCount(apis, searchQuery, a);
        }
      }
      assert forall a :: a in Filter(apis, searchQuery) <==> a in apis && Matches(a, searchQuery) by {
        forall a ensures a in Filter(apis, searchQuery) <==> a in apis && Matches(a, searchQuery) {
          FilterMembership(apis, searchQuery, a);
        }
      }
      Filter(apis, searchQuery)
    }

    /** The breadcrumb trail shown above the page. */
    function CurrentBreadcrumb(): (r: seq<string>)
      reads this
      ensures |r| == 2 && r[0] == "Home"
      ensures forall i :: 0 <= i < |MenuItems| && MenuItems[i].key == selectedMenu ==> r[1] == MenuItems[i].caption
      ensures (forall i :: 0 <= i < |MenuItems| ==> MenuItems[i].key != selectedMenu) ==> r[1] == "Unknown"
    {
      assert forall i :: 0 <= i < |MenuItems| && MenuItems[i].key == selectedMenu ==>
          Breadcrumb(MenuItems, selectedMenu) == ["Home", MenuItems[i].caption] by {
        forall i | 0 <= i < |MenuItems| && MenuItems[i].key == selectedMenu
          ensures Breadcrumb(MenuItems, selectedMenu) == ["Home", MenuItems[i].caption]
        {
          MenuBreadcrumbs(i);
        }
      }
      Breadcrumb(MenuItems, selectedMenu)
    }

    /** Search box: sets the query; the view is re-derived from it. */
    method HandleSearch(value: string)
      requires Valid()
      modifies this
      ensures Valid()
      ensures searchQuery == value
      ensures apis == old(apis) && formVisible == old(formVisible)
      ensures editingApi == old(editingApi) && selectedMenu == old(selectedMenu)
    {
      searchQuery := value;
    }

    /** Menu click: selects a page. */
    method SelectMenu(key: string)
      requires Valid()
      modifies this
      ensures Valid()
      ensures selectedMenu == key
      ensures apis == old(apis) && searchQuery == old(searchQuery)
      ensures formVisible == old(formVisible) && editingApi == old(editingApi)
    {
      selectedMenu := key;
    }

    /** "New API" button: opens the form. */
    method OpenForm()
      requires Valid()
      modifies this
      ensures Valid()
      ensures formVisible
      ensures apis == old(apis) && searchQuery == old(searchQuery)
      ensures editingApi == old(editingApi) && selectedMenu == old(selectedMenu)
    {
      formVisible := true;
    }

    /** Create: appends a draft record built from the submitted fields and
        hides the form. It leaves the record being edited alone: the submit
        dispatch only calls it when none is. */
    method HandleCreate(v: FormValues, id: string, createdAt: nat, updatedAt: nat)
      modifies this
      ensures apis == Create(old(apis), v, id, createdAt, updatedAt)
      ensures NeverReverts(old(apis), apis)
      ensures !formVisible
      ensures searchQuery == old(searchQuery) && editingApi == old(editingApi)
      ensures selectedMenu == old(selectedMenu)
    {
      apis := Create(apis, v, id, createdAt, updatedAt);
      formVisible := false;
    }

    /** Edit action of a row: remembers the record and opens the form. */
    method HandleEdit(api: Api)
      requires Valid()
      modifies this
      ensures Valid()
      ensures editingApi == Some(api) && formVisible
      ensures apis == old(apis) && searchQuery == old(searchQuery)
      ensures selectedMenu == old(selectedMenu)
    {
      editingApi := Some(api);
      formVisible := true;
    }

    /** Update: with no record being edited nothing happens; otherwise every
        record with the edited record's id takes the submitted fields, and the
        form closes and forgets the edited record. */
    method HandleUpdate(v: FormValues, now: nat)
      requires Valid()
      modifies this
      ensures Valid()
      ensures old(editingApi).None? ==>
        apis == old(apis) && formVisible == old(formVisible) && editingApi == None
      ensures !old(formVisible) ==>
        apis == old(apis) && !formVisible && editingApi == None
      ensures old(editingApi).Some? ==>
        apis == Update(old(apis), old(editingApi).value.id, v, now) && !formVisible && editingApi == None
      ensures NeverReverts(old(apis), apis)
      ensures searchQuery == old(searchQuery) && selectedMenu == old(selectedMenu)
    {
      if editingApi.None? {
        return;
      }
      apis := Update(apis, editingApi.value.id, v, now);
      formVisible := false;
      editingApi := None;
    }

    /** Publish action of a row: publishes every record with that id. */
    method HandlePublish(api: Api, now: nat)
      requires Valid()
      modifies this
      ensures Valid()
      ensures apis == Publish(old(apis), api.id, now)
      ensures NeverReverts(old(apis), apis)
      ensures formVisible == old(formVisible) && editingApi == old(editingApi)
      ensures searchQuery == old(searchQuery) && selectedMenu == old(selectedMenu)
    {
      apis := Publish(apis, api.id, now);
    }

    /** Cancel on the form: hides it and forgets the edited record. */
    method Cancel()
      requires Valid()
      modifies this
      ensures Valid()
      ensures !formVisible && editingApi == None
      ensures apis == old(apis) && searchQuery == old(searchQuery)
      ensures selectedMenu == old(selectedMenu)
    {
      formVisible := false;
      editingApi := None;
    }

    /** Submit on the form: an update when a record is being edited, a create
        otherwise. Either way the form ends closed with nothing being edited. */
    method Submit(v: FormValues, id: string, createdAt: nat, updatedAt: nat)
      requires Valid()
      modifies this
      ensures Valid()
      ensures old(editingApi).Some? ==> apis == Update(old(apis), old(editingApi).value.id, v, updatedAt)
      ensures old(editingApi).None? ==> apis == Create(old(apis), v, id, createdAt, updatedAt)
      ensures !formVisible && editingApi == None
      ensures NeverReverts(old(apis), apis)
      ensures searchQuery == old(searchQuery) && selectedMenu == old(selectedMenu)
    {
      if editingApi.Some? {
        HandleUpdate(v, updatedAt);
      } else {
        HandleCreate(v, id, createdAt, updatedAt);
      }
    }
  }

  /** A query whose first letter, in either case, is in neither the name nor
      the business of a record does not match it. */
  lemma MissedByFirstChar(a: Api, q: string)
    requires q != []
    requires LowerChar(q[0]) !in Lower(a.name) && LowerChar(q[0]) !in Lower(a.business)
    ensures !Matches(a, q)
  {
    NotIncludes(Lower(a.name), Lower(q));
    NotIncludes(Lower(a.business), Lower(q));
  }

  /** The query "checkout" finds a record of business "Checkout". */
  lemma CheckoutFound(a: Api)
    requires a.business == "Checkout"
    ensures Matches(a, "checkout")
  {
    assert Lower("Checkout") == "checkout" && Lower("checkout") == "checkout";
    IncludesSelf("checkout");
  }

  /** Neither "Orders API" nor "Checkout" holds a letter b in either case. */
  lemma NoLetterB(s: string)
    requires s == "Orders API" || s == "Checkout"
    ensures 'b' !in Lower(s)
  {
    LowerExcludes(s, 'b');
  }

  /** The query "billing" finds neither the name "Orders API" nor the
      business "Checkout". */
  lemma BillingMissed(a: Api)
    requires a.name == "Orders API" && a.business == "Checkout"
    ensures !Matches(a, "billing")
  {
    NoLetterB(a.name);
    NoLetterB(a.business);
    MissedByFirstChar(a, "billing");
  }

  /** A walk-through: create "Orders API" for business
      "Checkout", publish it, then search for "checkout" and "billing". */
  method OrdersWalkthrough(id: string, t1: nat, t2: nat, t3: nat)
    returns (found: seq<Api>, missing: seq<Api>, published: Api)
    ensures |found| == 1 && found[0] == published && missing == []
    ensures published.id == id && published.status == Published && published.updatedAt == t3
    ensures published.name == "Orders API" && published.business == "Checkout"
  {
    var app := new App();
    app.OpenForm();
    app.Submit(FormValues("Orders API", "x", "Checkout", POST), id, t1, t2);
    assert app.apis[0].status == Draft;
    app.HandlePublish(app.apis[0], t3);
    published := app.apis[0];
    app.HandleSearch("checkout");
    found := app.FilteredApis();
    CheckoutFound(published);
    app.HandleSearch("billing");
    missing := app.FilteredApis();
    BillingMissed(published);
  }
}
