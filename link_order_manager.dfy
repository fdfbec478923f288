/**
 * The contact-link editor of the dashboard: the order in which the contact
 * buttons appear on the card (resolved from the saved order, rearranged by
 * drag and drop) and the two per-contact maps that say whether a button is
 * shown and whether it shows only its icon.
 */
module LinkOrderManager {
  import opened Common
  import opened Lists

  /** A contact button with its caption; its icon is markup and not part of the model. */
  datatype Contact = Contact(id: string, caption: string)

  /** `availableContacts`, in their default order. */
  function AvailableContacts(): seq<Contact>
  {
    [
      Contact("whatsapp", "WhatsApp"),
      Contact("email", "E-mail"),
      Contact("phone", "Telefone"),
      Contact("pix", "Cobre com PIX"),
      Contact("instagram", "Instagram"),
      Contact("facebook", "Facebook"),
      Contact("linkedin", "LinkedIn"),
      Contact("twitter", "Twitter"),
      Contact("youtube", "YouTube"),
      Contact("spotify", "Spotify"),
      Contact("address", "Localização"),
      Contact("website", "Website"),
      Contact("google_reviews", "Avaliações Google")
    ]
  }

  /** The order used when the profile has no saved `contact_order`. */
  function DefaultOrder(): seq<string>
  {
    [
      "whatsapp", "email", "phone", "pix", "instagram", "facebook", "linkedin",
      "twitter", "youtube", "spotify", "address", "website", "google_reviews"
    ]
  }

  /** `items.map(item => item.id)`. */
  function Ids(cs: seq<Contact>): (r: seq<string>)
    ensures |r| == |cs| && forall i :: 0 <= i < |cs| ==> r[i] == cs[i].id
  {
    seq(|cs|, i requires 0 <= i < |cs| => cs[i].id)
  }

  predicate DistinctIds(cs: seq<Contact>)
  {
    forall i, j :: 0 <= i < j < |cs| ==> cs[i].id != cs[j].id
  }

  /** `cs.find(c => c.id === id)`: the first contact with that id. */
  function Find(cs: seq<Contact>, id: string): (r: Option<Contact>)
    ensures r.None? <==> forall i :: 0 <= i < |cs| ==> cs[i].id != id
    ensures r.Some? ==> r.value in cs && r.value.id == id
  {
    if cs == [] then None
    else if cs[0].id == id then Some(cs[0])
    else Find(cs[1..], id)
  }

  /** Among contacts with distinct ids, looking a contact's id up finds that contact. */
  lemma {:induction false} FindDistinct(cs: seq<Contact>, i: nat)
    requires DistinctIds(cs) && i < |cs|
    ensures Find(cs, cs[i].id) == Some(cs[i])
  {
    if i > 0 {
      assert cs[0].id != cs[i].id;
      FindDistinct(cs[1..], i - 1);
    }
  }

  lemma AvailableDistinct()
    ensures DistinctIds(AvailableContacts())
    ensures Ids(AvailableContacts()) == DefaultOrder()
  {
  }

  /** `order.map(id => cs.find(c => c.id === id)).filter(Boolean)`. */
  function Resolve(cs: seq<Contact>, order: seq<string>): (r: seq<Contact>)
    ensures |r| <= |order|
  {
    if order == [] then [] else ResolveId(cs, order[0]) + Resolve(cs, order[1..])
  }

  /** The contact an id maps to, as a list of zero or one contacts. */
  function ResolveId(cs: seq<Contact>, id: string): (r: seq<Contact>)
    ensures |r| <= 1
  {
    match Find(cs, id)
    case None => []
    case Some(c) => [c]
  }

  /** Every contact in the list is one of the known contacts. */
  lemma {:induction false} ResolveKnown(cs: seq<Contact>, order: seq<string>)
    ensures forall k :: 0 <= k < |Resolve(cs, order)| ==> Resolve(cs, order)[k] in cs
  {
    if order != [] {
      ResolveKnown(cs, order[1..]);
    }
  }

  /** The list of the editor: the saved order when there is one, else the default order. */
  function ResolveOrder(saved: Option<seq<string>>): seq<Contact>
  {
    Resolve(AvailableContacts(), if saved.Some? then saved.value else DefaultOrder())
  }

  /** Resolution works id by id, so the known ids keep their relative order. */
  lemma {:induction false} ResolveAppend(cs: seq<Contact>, a: seq<string>, b: seq<string>)
    ensures Resolve(cs, a + b) == Resolve(cs, a) + Resolve(cs, b)
  {
    if a == [] {
      assert a + b == b;
    } else {
      assert (a + b)[1..] == a[1..] + b;
      ResolveAppend(cs, a[1..], b);
    }
  }

  /** An unknown id contributes nothing; a known one contributes its contact. */
  lemma ResolveOne(cs: seq<Contact>, id: string)
    requires DistinctIds(cs)
    ensures (forall i :: 0 <= i < |cs| ==> cs[i].id != id) ==> Resolve(cs, [id]) == []
    ensures forall i :: 0 <= i < |cs| && cs[i].id == id ==> Resolve(cs, [id]) == [cs[i]]
  {
    forall i | 0 <= i < |cs| && cs[i].id == id
      ensures Resolve(cs, [id]) == [cs[i]]
    {
      FindDistinct(cs, i);
    }
  }

  /** Only contacts whose id is in the saved order appear. */
  lemma {:induction false} ResolveOnlyListed(cs: seq<Contact>, order: seq<string>)
    ensures forall k :: 0 <= k < |Resolve(cs, order)| ==> Resolve(cs, order)[k].id in order
  {
    if order != [] {
      ResolveOnlyListed(cs, order[1..]);
      var r := Resolve(cs, order);
      forall k | 0 <= k < |r| ensures r[k].id in order {
        if k < |ResolveId(cs, order[0])| {
          assert r[k] == Find(cs, order[0]).value;
        } else {
          assert r[k] == Resolve(cs, order[1..])[k - |ResolveId(cs, order[0])|];
        }
      }
    }
  }

  /** Loading what was saved gives the same list back, when it holds distinct known contacts. */
  lemma {:induction false} ResolveIds(cs: seq<Contact>, items: seq<Contact>)
    requires DistinctIds(cs)
    requires forall k :: 0 <= k < |items| ==> items[k] in cs
    ensures Resolve(cs, Ids(items)) == items
  {
    if items != [] {
      var i :| 0 <= i < |cs| && cs[i] == items[0];
      FindDistinct(cs, i);
      assert Ids(items)[1..] == Ids(items[1..]);
      ResolveIds(cs, items[1..]);
    }
  }

  /** Without a saved order, all 13 contacts appear in their default order. */
  lemma DefaultResolution()
    ensures ResolveOrder(None) == AvailableContacts()
    ensures |ResolveOrder(None)| == 13
  {
    AvailableDistinct();
    ResolveIds(AvailableContacts(), AvailableContacts());
  }

  // ---------------------------------------------------------------------------
  // The two visibility maps
  // ---------------------------------------------------------------------------

  /** `prev[id]` read as a boolean: an absent key is `undefined`, which is falsy. */
  function Flag(m: map<string, bool>, id: string): bool
  {
    id in m && m[id]
  }

  /** `{ ...prev, [id]: !prev[id] }`. */
  function Toggle(m: map<string, bool>, id: string): (r: map<string, bool>)
    ensures id in r && r[id] == !Flag(m, id)
    ensures forall k :: k != id ==> (k in r <==> k in m)
    ensures forall k :: k != id && k in m ==> r[k] == m[k]
  {
    m[id := !Flag(m, id)]
  }

  /** A contact is shown unless its flag is explicitly `false`. */
  predicate IsActive(active: map<string, bool>, id: string)
  {
    !(id in active && active[id] == false)
  }

  /** A contact shows only its icon when its flag is explicitly `true`. */
  predicate IsIconOnly(iconOnly: map<string, bool>, id: string)
  {
    id in iconOnly && iconOnly[id] == true
  }

  /**
   * The first toggle of an unset contact stores `true` and leaves it shown;
   * once set, each toggle hides or shows it.  Other contacts are unaffected.
   */
  lemma ToggleActiveShown(active: map<string, bool>, id: string, other: string)
    ensures id !in active ==> IsActive(Toggle(active, id), id) && IsActive(active, id)
    ensures id in active ==> (IsActive(Toggle(active, id), id) <==> !IsActive(active, id))
    ensures other != id ==> (IsActive(Toggle(active, id), other) <==> IsActive(active, other))
  {
  }

  /** Every toggle switches the icon mode, the first one included; other contacts are unaffected. */
  lemma ToggleIconOnlyShown(iconOnly: map<string, bool>, id: string, other: string)
    ensures IsIconOnly(Toggle(iconOnly, id), id) <==> !IsIconOnly(iconOnly, id)
    ensures other != id ==> (IsIconOnly(Toggle(iconOnly, id), other) <==> IsIconOnly(iconOnly, other))
  {
  }

  /** Two toggles of a set contact give its flag back. */
  lemma ToggleTwice(m: map<string, bool>, id: string)
    requires id in m
    ensures Toggle(Toggle(m, id), id) == m
  {
    assert Toggle(Toggle(m, id), id).Keys == m.Keys;
  }

  /** The first index of the contact with that id. */
  function IndexOfId(cs: seq<Contact>, id: string): (r: nat)
    requires exists i :: 0 <= i < |cs| && cs[i].id == id
    ensures r < |cs| && cs[r].id == id
    ensures forall i :: 0 <= i < r ==> cs[i].id != id
  {
    if cs[0].id == id then 0
    else
      assert exists i :: 0 <= i < |cs[1..]| && cs[1..][i].id == id by {
        var i :| 0 <= i < |cs| && cs[i].id == id;
        assert cs[1..][i - 1].id == id;
      }
      1 + IndexOfId(cs[1..], id)
  }

  predicate HasId(cs: seq<Contact>, id: string)
  {
    exists i :: 0 <= i < |cs| && cs[i].id == id
  }

  class Editor {
    var items: seq<Contact>
    var contactActive: map<string, bool>
    var contactIconOnly: map<string, bool>

    /** The effect on `profile`: the resolved order and the saved maps, or empty ones. */
    constructor (savedOrder: Option<seq<string>>, savedActive: Option<map<string, bool>>,
                 savedIconOnly: Option<map<string, bool>>)
      ensures items == ResolveOrder(savedOrder)
      ensures contactActive == (if savedActive.Some? then savedActive.value else map[])
      ensures contactIconOnly == (if savedIconOnly.Some? then savedIconOnly.value else map[])
    {
      items := ResolveOrder(savedOrder);
      contactActive := if savedActive.Some? then savedActive.value else map[];
      contactIconOnly := if savedIconOnly.Some? then savedIconOnly.value else map[];
    }

    /**
     * `handleDragEnd`: a drop on another item moves the dragged one to its
     * index; a drop on itself, or outside any item (`over` is null, and the
     * handler stops at `over.id`), changes nothing.
     */
    method HandleDragEnd(activeId: string, overId: Option<string>)
      requires HasId(items, activeId)
      requires overId.Some? ==> HasId(items, overId.value)
      modifies this
      ensures overId.None? || overId.value == activeId ==> items == old(items)
      ensures overId.Some? && overId.value != activeId ==>
        items == Move(old(items), IndexOfId(old(items), activeId), IndexOfId(old(items), overId.value))
      ensures contactActive == old(contactActive) && contactIconOnly == old(contactIconOnly)
    {
      if overId.Some? && activeId != overId.value {
        var oldIndex := IndexOfId(items, activeId);
        var newIndex := IndexOfId(items, overId.value);
        items := Move(items, oldIndex, newIndex);
      }
    }

    /** `handleToggleActive(id)`. */
    method HandleToggleActive(id: string)
      modifies this
      ensures contactActive == Toggle(old(contactActive), id)
      ensures items == old(items) && contactIconOnly == old(contactIconOnly)
    {
      contactActive := Toggle(contactActive, id);
    }

    /** `handleToggleIconOnly(id)`. */
    method HandleToggleIconOnly(id: string)
      modifies this
      ensures contactIconOnly == Toggle(old(contactIconOnly), id)
      ensures items == old(items) && contactActive == old(contactActive)
    {
      contactIconOnly := Toggle(contactIconOnly, id);
    }

    /** The `contact_order` `handleSaveOrder` writes: the ids in their current order. */
    function SavedOrder(): (r: seq<string>)
      reads this
      ensures |r| == |items| && forall i :: 0 <= i < |r| ==> r[i] == items[i].id
    {
      Ids(items)
    }
  }

  /** A drag keeps every contact and puts the dragged one where the other one was. */
  lemma DragEndPermutes(items: seq<Contact>, activeId: string, overId: string)
    requires HasId(items, activeId) && HasId(items, overId)
    ensures var from, to := IndexOfId(items, activeId), IndexOfId(items, overId);
      multiset(Move(items, from, to)) == multiset(items) &&
      Move(items, from, to)[to].id == activeId
  {
    var from, to := IndexOfId(items, activeId), IndexOfId(items, overId);
    MovePermutes(items, from, to);
    MoveAt(items, from, to, to);
  }

  /** Saving after any drag and loading again restores the rearranged list. */
  lemma SaveLoadAfterDrag(items: seq<Contact>, from: nat, to: nat)
    requires forall k :: 0 <= k < |items| ==> items[k] in AvailableContacts()
    requires from < |items| && to < |items|
    ensures ResolveOrder(Some(Ids(Move(items, from, to)))) == Move(items, from, to)
  {
    var m := Move(items, from, to);
    MovePermutes(items, from, to);
    forall k | 0 <= k < |m| ensures m[k] in AvailableContacts() {
      assert m[k] in multiset(items);
    }
    AvailableDistinct();
    ResolveIds(AvailableContacts(), m);
  }
}
