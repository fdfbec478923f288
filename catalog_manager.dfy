/**
 * The product catalogue editor of the dashboard: the product form with its
 * image list (added by URL, removed, reordered by drag and drop), saving a
 * product as a new or an edited item, hiding and removing items, and the
 * catalogue as it is persisted with its items renumbered.
 */
module CatalogManager {
  import opened Common
  import opened Lists
  import Currency

  // ---------------------------------------------------------------------------
  // Prices: parseFloat(digits) / 100
  // ---------------------------------------------------------------------------

  /** A price as `parseCurrency` yields it: NaN for a text without digits, else cents. */
  datatype Price = NotANumber | Amount(cents: nat)

  function ParsePrice(value: string): (r: Price)
    ensures r.NotANumber? <==> DigitsOnly(value) == []
  {
    var numbers := DigitsOnly(value);
    if numbers == [] then NotANumber else Amount(DecValue(numbers))
  }

  /** With a digit in it, the price is the same number of cents the Pix modal reads. */
  lemma ParsePriceCents(value: string)
    requires DigitsOnly(value) != []
    ensures ParsePrice(value) == Amount(Currency.ParseCents(value))
  {
  }

  /**
   * Any rendering of an amount whose digits are those of the whole part
   * followed by two decimals parses back to that amount, however the
   * rendering groups the thousands and whatever currency sign or separators
   * it puts between them.
   */
  lemma ParseRenderedPrice(s: string, cents: nat)
    requires DigitsOnly(s) == DecStr(cents / 100) + Pad2(cents % 100)
    ensures ParsePrice(s) == Amount(cents)
  {
    Currency.DigitsChunks(cents);
  }

  /**
   * In particular a digit-free prefix, the whole part, a digit-free
   * separator and two decimals (such as "R$ 12,34").
   */
  lemma ParseFormattedPrice(prefix: string, separator: string, cents: nat)
    requires forall i :: 0 <= i < |prefix| ==> !IsDigit(prefix[i])
    requires forall i :: 0 <= i < |separator| ==> !IsDigit(separator[i])
    ensures ParsePrice(prefix + DecStr(cents / 100) + separator + Pad2(cents % 100)) == Amount(cents)
  {
    var w, f := DecStr(cents / 100), Pad2(cents % 100);
    var s := prefix + w + separator + f;
    assert DigitsOnly(s) == w + f by {
      DigitsOnlyNoDigits(prefix);
      DigitsOnlyNoDigits(separator);
      DigitsOnlyAppend(prefix + w + separator, f);
      DigitsOnlyAppend(prefix + w, separator);
      DigitsOnlyAppend(prefix, w);
    }
    ParseRenderedPrice(s, cents);
  }

  lemma NonDigitsAfter(a: string, b: string)
    requires forall i :: 0 <= i < |b| ==> !IsDigit(b[i])
    ensures DigitsOnly(a + b) == DigitsOnly(a)
  {
    DigitsOnlyNoDigits(b);
    DigitsOnlyAppend(a, b);
  }

  lemma DigitsAfter(a: string, b: string)
    requires AllDigits(b)
    ensures DigitsOnly(a + b) == DigitsOnly(a) + b
  {
    DigitsOnlyAppend(a, b);
  }

  /** The digits of "R$ 1.234,56" are "123456". */
  lemma GroupedDigits()
    ensures DigitsOnly("R$ " + "1" + "." + "234" + "," + "56") == "123456"
  {
    assert DigitsOnly("R$ " + "1") == "1" by {
      DigitsOnlyNoDigits("R$ ");
      DigitsAfter("R$ ", "1");
    }
    assert DigitsOnly("R$ " + "1" + ".") == "1" by {
      NonDigitsAfter("R$ " + "1", ".");
    }
    assert DigitsOnly("R$ " + "1" + "." + "234") == "1234" by {
      DigitsAfter("R$ " + "1" + ".", "234");
    }
    assert DigitsOnly("R$ " + "1" + "." + "234" + ",") == "1234" by {
      NonDigitsAfter("R$ " + "1" + "." + "234", ",");
    }
    DigitsAfter("R$ " + "1" + "." + "234" + ",", "56");
  }

  /** The numeral "123456" is 123456, digit by digit. */
  lemma GroupedValue()
    ensures AllDigits("123456") && DecValue("123456") == 123456
  {
    assert DecValue("1") == 1;
    assert DecValue("12") == 12 by { assert "12"[..1] == "1"; }
    assert DecValue("123") == 123 by { assert "123"[..2] == "12"; }
    assert DecValue("1234") == 1234 by { assert "1234"[..3] == "123"; }
    assert DecValue("12345") == 12345 by { assert "12345"[..4] == "1234"; }
    assert DecValue("123456") == 123456 by { assert "123456"[..5] == "12345"; }
  }

  /** The pt-BR currency rendering groups thousands with a point: "R$ 1.234,56" is 1234.56. */
  lemma GroupedPriceExample()
    ensures ParsePrice("R$ " + "1" + "." + "234" + "," + "56") == Amount(123456)
  {
    GroupedDigits();
    GroupedValue();
  }

  // ---------------------------------------------------------------------------
  // Items and the product form
  // ---------------------------------------------------------------------------

  /** The button and Pix settings a product carries; `saveProduct` copies them from the form. */
  datatype ButtonSettings = ButtonSettings(
    buttonText: string, buttonLinkType: string, showImageAbove: bool,
    whatsappMessage: string, pixKeyType: string,
    pixBeneficiaryName: string, pixBeneficiaryCity: string)

  const DefaultButton: ButtonSettings :=
    ButtonSettings("Mais informações", "whatsapp", true, "", "cpf", "", "")

  /**
   * A catalogue item. A stored item may lack `images`; a missing `image`,
   * `link` or button text is "", and a missing `showImageAbove` is true,
   * which is how `openModal` reads each of them (`||` and `!== false`).
   */
  datatype CatalogItem = CatalogItem(
    id: string, name: string, description: string, price: Price,
    images: Option<seq<string>>, image: string, link: string, order: nat,
    hidden: bool, button: ButtonSettings)

  /** The fields of the product modal; `price` is the text of the price input. */
  datatype ProductForm = ProductForm(
    name: string, description: string, price: string, images: seq<string>,
    buttonLink: string, button: ButtonSettings)

  const EmptyForm: ProductForm := ProductForm("", "", "", [], "", DefaultButton)

  /** `x || fallback` on a text: an empty text takes the fallback. */
  function OrElse(x: string, fallback: string): (r: string)
    ensures x != "" ==> r == x
    ensures x == "" ==> r == fallback
  {
    if x != "" then x else fallback
  }

  /**
   * The button fields `openModal` shows for an item: the three texts with a
   * default take it when empty, and every other field is shown as stored.
   */
  function ButtonShown(b: ButtonSettings): (r: ButtonSettings)
    ensures r.buttonText != "" && r.buttonLinkType != "" && r.pixKeyType != ""
    ensures b.buttonText != "" && b.buttonLinkType != "" && b.pixKeyType != "" ==> r == b
    ensures r.(buttonText := b.buttonText, buttonLinkType := b.buttonLinkType, pixKeyType := b.pixKeyType) == b
  {
    b.(buttonText := OrElse(b.buttonText, DefaultButton.buttonText),
       buttonLinkType := OrElse(b.buttonLinkType, DefaultButton.buttonLinkType),
       pixKeyType := OrElse(b.pixKeyType, DefaultButton.pixKeyType))
  }

  /** Showing the button fields twice is showing them once. */
  lemma ButtonShownIdempotent(b: ButtonSettings)
    ensures ButtonShown(ButtonShown(b)) == ButtonShown(b)
  {
  }

  /** An item with none of the button fields stored shows the new product's defaults. */
  lemma ButtonShownDefaults()
    ensures ButtonShown(ButtonSettings("", "", true, "", "", "", "")) == DefaultButton
  {
  }

  /**
   * `item.images || (item.image ? [item.image] : [])`: a stored list wins,
   * even an empty one; otherwise the single image, if there is one.
   */
  function ImagesOf(item: CatalogItem): (r: seq<string>)
    ensures item.images.Some? ==> r == item.images.value
    ensures item.images.None? && item.image == "" ==> r == []
    ensures item.images.None? && item.image != "" ==> r == [item.image]
  {
    match item.images
    case Some(images) => images
    case None => if item.image != "" then [item.image] else []
  }

  /** `images[0] || ""`: the cover image. */
  function CoverImage(images: seq<string>): (r: string)
    ensures images == [] ==> r == ""
    ensures images != [] ==> r == images[0]
  {
    if images != [] && images[0] != "" then images[0] else ""
  }

  /**
   * The item `saveProduct` builds: the edited item's id unless it is empty,
   * its order unless it is 0, its hidden flag; for a new product a fresh id,
   * the count of items as order and not hidden.
   */
  function NewItem(form: ProductForm, editing: Option<CatalogItem>, itemCount: nat, freshId: string): CatalogItem
  {
    CatalogItem(
      if editing.Some? && editing.value.id != "" then editing.value.id else freshId,
      form.name, form.description, ParsePrice(form.price),
      Some(form.images), CoverImage(form.images), form.buttonLink,
      if editing.Some? && editing.value.order != 0 then editing.value.order else itemCount,
      if editing.Some? then editing.value.hidden else false,
      form.button)
  }

  /** Every item with the given id replaced by `x`. */
  function ReplaceById(items: seq<CatalogItem>, id: string, x: CatalogItem): (r: seq<CatalogItem>)
    ensures |r| == |items|
    ensures forall i :: 0 <= i < |items| ==> r[i] == if items[i].id == id then x else items[i]
  {
    seq(|items|, i requires 0 <= i < |items| => if items[i].id == id then x else items[i])
  }

  /** `saveProduct`'s new list: the edited item replaced in place, or the new item appended. */
  function SaveItems(items: seq<CatalogItem>, editing: Option<CatalogItem>, form: ProductForm, freshId: string): seq<CatalogItem>
  {
    var x := NewItem(form, editing, |items|, freshId);
    if editing.Some? then ReplaceById(items, editing.value.id, x) else items + [x]
  }

  /**
   * Editing replaces exactly the items with the edited id, keeping the
   * length, the edited item's id (a fresh one if it had none) and hidden
   * flag, and its order unless that was 0; everything else comes from the
   * form.
   */
  lemma SaveEditing(items: seq<CatalogItem>, e: CatalogItem, form: ProductForm, freshId: string)
    ensures var r := SaveItems(items, Some(e), form, freshId);
      |r| == |items| &&
      (forall i :: 0 <= i < |items| && items[i].id != e.id ==> r[i] == items[i]) &&
      (forall i :: 0 <= i < |items| && items[i].id == e.id ==>
         r[i].id == (if e.id != "" then e.id else freshId) &&
         r[i].name == form.name && r[i].description == form.description &&
         r[i].price == ParsePrice(form.price) &&
         r[i].images == Some(form.images) && r[i].image == CoverImage(form.images) &&
         r[i].link == form.buttonLink &&
         r[i].order == (if e.order != 0 then e.order else |items|) &&
         r[i].hidden == e.hidden && r[i].button == form.button)
  {
  }

  /** Adding appends one visible item with a fresh id after all others, built from the form. */
  lemma SaveAdding(items: seq<CatalogItem>, form: ProductForm, freshId: string)
    ensures var r := SaveItems(items, None, form, freshId);
      |r| == |items| + 1 && r[..|items|] == items &&
      r[|items|].id == freshId && !r[|items|].hidden && r[|items|].order == |items| &&
      r[|items|].name == form.name && r[|items|].description == form.description &&
      r[|items|].price == ParsePrice(form.price) &&
      r[|items|].images == Some(form.images) && r[|items|].image == CoverImage(form.images) &&
      r[|items|].link == form.buttonLink && r[|items|].button == form.button
  {
  }

  /** The form `openModal` shows for an item, given the text its price is displayed as. */
  function FormOf(item: CatalogItem, priceText: string): (r: ProductForm)
    ensures r.name == item.name && r.description == item.description && r.price == priceText
    ensures r.images == ImagesOf(item) && r.buttonLink == item.link
    ensures r.button == ButtonShown(item.button)
  {
    ProductForm(item.name, item.description, priceText, ImagesOf(item), item.link, ButtonShown(item.button))
  }

  /**
   * Reopening a saved item shows the form it was saved from, except the
   * price text, which is rendered anew, and the empty button texts, which
   * take their defaults.
   */
  lemma ReopenSaved(form: ProductForm, editing: Option<CatalogItem>, itemCount: nat, freshId: string, priceText: string)
    ensures FormOf(NewItem(form, editing, itemCount, freshId), priceText) ==
            form.(price := priceText, button := ButtonShown(form.button))
  {
  }

  /** `toggleVisibility(id)`: the hidden flag flips on the items with that id only. */
  function ToggleVisibility(items: seq<CatalogItem>, id: string): (r: seq<CatalogItem>)
    ensures |r| == |items|
    ensures forall i :: 0 <= i < |items| ==>
      r[i] == if items[i].id == id then items[i].(hidden := !items[i].hidden) else items[i]
  {
    seq(|items|, i requires 0 <= i < |items| =>
      if items[i].id == id then items[i].(hidden := !items[i].hidden) else items[i])
  }

  /** Toggling twice gives the catalogue back. */
  lemma ToggleTwice(items: seq<CatalogItem>, id: string)
    ensures ToggleVisibility(ToggleVisibility(items, id), id) == items
  {
    var r := ToggleVisibility(ToggleVisibility(items, id), id);
    forall i | 0 <= i < |items| ensures r[i] == items[i] {
    }
  }

  /** `removeItem(id)` once confirmed: the items whose id differs, in their order. */
  function RemoveItem(items: seq<CatalogItem>, id: string): (r: seq<CatalogItem>)
    ensures |r| <= |items|
    ensures forall i :: 0 <= i < |r| ==> r[i].id != id && r[i] in items
  {
    if items == [] then []
    else (if items[0].id == id then [] else [items[0]]) + RemoveItem(items[1..], id)
  }

  /** Removal works piece by piece, so the remaining items keep their relative order. */
  lemma {:induction false} RemoveItemAppend(a: seq<CatalogItem>, b: seq<CatalogItem>, id: string)
    ensures RemoveItem(a + b, id) == RemoveItem(a, id) + RemoveItem(b, id)
  {
    if a == [] {
      assert a + b == b;
    } else {
      assert (a + b)[1..] == a[1..] + b;
      RemoveItemAppend(a[1..], b, id);
    }
  }

  /** Every item with another id survives the removal. */
  lemma {:induction false} RemoveItemKeeps(items: seq<CatalogItem>, id: string, x: CatalogItem)
    requires x in items && x.id != id
    ensures x in RemoveItem(items, id)
  {
    if items[0] != x {
      RemoveItemKeeps(items[1..], id, x);
    }
  }

  /** A catalogue without the id is left as it is. */
  lemma {:induction false} RemoveItemAbsent(items: seq<CatalogItem>, id: string)
    requires forall i :: 0 <= i < |items| ==> items[i].id != id
    ensures RemoveItem(items, id) == items
  {
    if items != [] {
      RemoveItemAbsent(items[1..], id);
    }
  }

  /** The catalogue as `handleSave` persists it: each item's order is its index. */
  function Renumber(items: seq<CatalogItem>): (r: seq<CatalogItem>)
    ensures |r| == |items|
    ensures forall i :: 0 <= i < |r| ==> r[i].order == i
    ensures forall i :: 0 <= i < |r| ==> r[i].(order := items[i].order) == items[i]
  {
    seq(|items|, i requires 0 <= i < |items| => items[i].(order := i))
  }

  /** Persisting an already persisted catalogue changes nothing. */
  lemma RenumberIdempotent(items: seq<CatalogItem>)
    ensures Renumber(Renumber(items)) == Renumber(items)
  {
  }

  /**
   * Persisting after a removal: the orders are again 0, 1, 2, …, each
   * persisted item is a stored item with another id apart from its order,
   * and every stored item with another id is persisted.
   */
  lemma RenumberAfterRemove(items: seq<CatalogItem>, id: string)
    ensures var r := Renumber(RemoveItem(items, id));
      (forall j :: 0 <= j < |r| ==> r[j].order == j && r[j].id != id) &&
      (forall j :: 0 <= j < |r| ==> exists k :: 0 <= k < |items| && r[j].(order := items[k].order) == items[k]) &&
      (forall x :: x in items && x.id != id ==> exists j :: 0 <= j < |r| && r[j].(order := x.order) == x)
  {
    var kept := RemoveItem(items, id);
    var r := Renumber(kept);
    forall j | 0 <= j < |r|
      ensures exists k :: 0 <= k < |items| && r[j].(order := items[k].order) == items[k]
    {
      var k :| 0 <= k < |items| && items[k] == kept[j];
      assert r[j].(order := items[k].order) == items[k];
    }
    forall x | x in items && x.id != id
      ensures exists j :: 0 <= j < |r| && r[j].(order := x.order) == x
    {
      RemoveItemKeeps(items, id, x);
      var j :| 0 <= j < |kept| && kept[j] == x;
      assert r[j].(order := x.order) == x;
    }
  }

  // ---------------------------------------------------------------------------
  // handleDrop: a copy of the image list, spliced twice in place
  // ---------------------------------------------------------------------------

  /**
   * `splice(from, 1)` then `splice(to, 0, moved)` on the array itself: the
   * elements between the two positions shift by one and the moved element
   * lands at `to`.
   */
  method SpliceMove<T>(a: array<T>, from: nat, to: nat)
    requires from < a.Length && to < a.Length
    modifies a
    ensures a[..] == Move(old(a[..]), from, to)
  {
    ghost var o := a[..];
    var moved := a[from];
    if from < to {
      ShiftDown(a, from, to);
    } else {
      ShiftUp(a, to, from);
    }
    a[to] := moved;
    forall i | 0 <= i < a.Length ensures a[i] == Move(o, from, to)[i] {
      MoveAt(o, from, to, i);
    }
  }

  /** `[...images]`: a new array holding the list. */
  method ArrayOf<T>(s: seq<T>) returns (a: array<T>)
    ensures fresh(a) && a[..] == s
  {
    a := new T[|s|](i requires 0 <= i < |s| => s[i]);
  }

  /** The elements after `lo` up to `hi` each move one place down; `a[hi]` keeps its value. */
  method ShiftDown<T>(a: array<T>, lo: nat, hi: nat)
    requires lo <= hi < a.Length
    modifies a
    ensures forall i :: 0 <= i < lo ==> a[i] == old(a[i])
    ensures forall i :: lo <= i < hi ==> a[i] == old(a[i + 1])
    ensures forall i :: hi <= i < a.Length ==> a[i] == old(a[i])
  {
    var k := lo;
    while k < hi
      invariant lo <= k <= hi
      invariant forall i :: 0 <= i < lo ==> a[i] == old(a[i])
      invariant forall i :: lo <= i < k ==> a[i] == old(a[i + 1])
      invariant forall i :: k <= i < a.Length ==> a[i] == old(a[i])
    {
      a[k] := a[k + 1];
      k := k + 1;
    }
  }

  /** The elements from `lo` up to before `hi` each move one place up; `a[lo]` keeps its value. */
  method ShiftUp<T>(a: array<T>, lo: nat, hi: nat)
    requires lo <= hi < a.Length
    modifies a
    ensures forall i :: 0 <= i <= lo ==> a[i] == old(a[i])
    ensures forall i :: lo < i <= hi ==> a[i] == old(a[i - 1])
    ensures forall i :: hi < i < a.Length ==> a[i] == old(a[i])
  {
    var k := hi;
    while k > lo
      invariant lo <= k <= hi
      invariant forall i :: 0 <= i <= k ==> a[i] == old(a[i])
      invariant forall i :: k < i <= hi ==> a[i] == old(a[i - 1])
      invariant forall i :: hi < i < a.Length ==> a[i] == old(a[i])
    {
      a[k] := a[k - 1];
      k := k - 1;
    }
  }

  // ---------------------------------------------------------------------------
  // The component
  // ---------------------------------------------------------------------------

  class Catalog {
    var items: seq<CatalogItem>
    var form: ProductForm
    var editing: Option<CatalogItem>
    var showModal: bool
    var draggedImageIndex: Option<nat>

    constructor (items: seq<CatalogItem>)
      ensures this.items == items && form == EmptyForm && editing == None
      ensures !showModal && draggedImageIndex == None
    {
      this.items := items;
      form := EmptyForm;
      editing := None;
      showModal := false;
      draggedImageIndex := None;
    }

    /**
     * `openModal(item)`: the item being edited (none for a new product) and
     * the form it is shown with. For an item the form holds its name,
     * description, images and link with their `||` fallbacks and its button
     * fields with their defaults; `priceText` is the locale rendering of its
     * price.
     */
    method OpenModal(item: Option<CatalogItem>, priceText: string)
      modifies this
      ensures editing == item && showModal
      ensures item.None? ==> form == EmptyForm
      ensures item.Some? ==>
        form == ProductForm(item.value.name, item.value.description, priceText,
                            ImagesOf(item.value), item.value.link, ButtonShown(item.value.button))
      ensures items == old(items) && draggedImageIndex == old(draggedImageIndex)
    {
      editing := item;
      form := if item.Some? then FormOf(item.value, priceText) else EmptyForm;
      showModal := true;
    }

    /** `addImageUrl`: the prompt's answer, appended when it is a non-empty text. */
    method AddImageUrl(answer: Option<string>)
      modifies this
      ensures answer.Some? && answer.value != "" ==>
        form == old(form).(images := old(form).images + [answer.value])
      ensures answer.None? || answer.value == "" ==> form == old(form)
      ensures items == old(items) && editing == old(editing)
      ensures showModal == old(showModal) && draggedImageIndex == old(draggedImageIndex)
    {
      if answer.Some? && answer.value != "" {
        form := form.(images := form.images + [answer.value]);
      }
    }

    /** `removeImage(index)`: that image leaves the form, the others keep their order. */
    method RemoveImage(index: nat)
      modifies this
      ensures form == old(form).(images := RemoveAt(old(form).images, index))
      ensures items == old(items) && editing == old(editing)
      ensures showModal == old(showModal) && draggedImageIndex == old(draggedImageIndex)
    {
      form := form.(images := RemoveAt(form.images, index));
    }

    /** `handleDragStart(index)`. */
    method HandleDragStart(index: nat)
      modifies this
      ensures draggedImageIndex == Some(index)
      ensures items == old(items) && form == old(form) && editing == old(editing) && showModal == old(showModal)
    {
      draggedImageIndex := Some(index);
    }

    /**
     * `handleDrop(dropIndex)`: without a drag in progress nothing changes;
     * otherwise the dragged image moves to `dropIndex` (the end for an index
     * past it) and the drag ends.  The dragged index is one of the images.
     */
    method HandleDrop(dropIndex: nat)
      requires draggedImageIndex.Some? ==> draggedImageIndex.value < |form.images|
      modifies this
      ensures old(draggedImageIndex).None? ==> form == old(form) && draggedImageIndex == None
      ensures old(draggedImageIndex).Some? ==>
        form == old(form).(images := Move(old(form).images, old(draggedImageIndex).value, dropIndex)) &&
        draggedImageIndex == None
      ensures items == old(items) && editing == old(editing) && showModal == old(showModal)
    {
      if draggedImageIndex.None? {
        return;
      }
      var from := draggedImageIndex.value;
      var images := form.images;
      var newImages := ArrayOf(images);
      SpliceMove(newImages, from, Min(dropIndex, |images| - 1));
      MoveClamped(images, from, dropIndex);
      form := form.(images := newImages[..]);
      draggedImageIndex := None;
    }

    /** `closeModal`: the modal closes and nothing is being edited; the form keeps its fields. */
    method CloseModal()
      modifies this
      ensures !showModal && editing == None
      ensures items == old(items) && form == old(form) && draggedImageIndex == old(draggedImageIndex)
    {
      showModal := false;
      editing := None;
    }

    /** `saveProduct(freshId)`: the catalogue gets the saved item and the modal closes. */
    method SaveProduct(freshId: string)
      modifies this
      ensures items == SaveItems(old(items), old(editing), form, freshId)
      ensures editing == None && !showModal
      ensures form == old(form) && draggedImageIndex == old(draggedImageIndex)
    {
      items := SaveItems(items, editing, form, freshId);
      showModal := false;
      editing := None;
    }

    /** `toggleVisibility(id)`. */
    method ToggleItemVisibility(id: string)
      modifies this
      ensures items == ToggleVisibility(old(items), id)
      ensures form == old(form) && editing == old(editing)
      ensures showModal == old(showModal) && draggedImageIndex == old(draggedImageIndex)
    {
      items := ToggleVisibility(items, id);
    }

    /** `removeItem(id)`: only a confirmed removal changes the catalogue. */
    method RemoveCatalogItem(id: string, confirmed: bool)
      modifies this
      ensures items == if confirmed then RemoveItem(old(items), id) else old(items)
      ensures form == old(form) && editing == old(editing)
      ensures showModal == old(showModal) && draggedImageIndex == old(draggedImageIndex)
    {
      if confirmed {
        items := RemoveItem(items, id);
      }
    }

    /** The `catalog` column `handleSave` writes. */
    function Persisted(): (r: seq<CatalogItem>)
      reads this
      ensures |r| == |items| && forall i :: 0 <= i < |r| ==> r[i].order == i
      ensures forall i :: 0 <= i < |r| ==> r[i].(order := items[i].order) == items[i]
    {
      Renumber(items)
    }
  }

  /** A drop moves the dragged image to the drop position and keeps every image. */
  lemma DropPlacesImage(images: seq<string>, from: nat, dropIndex: nat)
    requires from < |images| && dropIndex < |images|
    ensures Move(images, from, dropIndex)[dropIndex] == images[from]
    ensures multiset(Move(images, from, dropIndex)) == multiset(images)
  {
    MovePermutes(images, from, dropIndex);
  }
}
