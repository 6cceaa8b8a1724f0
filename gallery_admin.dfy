/**
 * The gallery editor of the admin dashboard: an in-memory list of pictures
 * with their layout size, a draft for the add form, and deletion by id.
 */
module GalleryAdmin {
  import opened Wrappers
  import Ids
  import Listing
  import JsNumber

  const SquarePlaceholder: string := "/placeholder.svg?height=400&width=400"

  /**
   * The fields of a picture other than its id. Width and height are numbers
   * parsed from the form (None stands for NaN); `className` may be absent.
   */
  datatype ItemInfo = ItemInfo(alt: string, width: Option<int>, height: Option<int>, className: Option<string>, image: string)

  datatype GalleryItem = GalleryItem(id: int, info: ItemInfo)

  /** The form inputs, by their `name` attribute. */
  datatype ItemField = Alt | ClassName | Width | Height | Image

  /** What a field holds: text, a parsed number, or nothing (an absent `className`). */
  datatype FieldValue = Text(text: string) | Number(number: Option<int>) | Absent

  function ItemId(item: GalleryItem): int { item.id }

  /** The add form's draft after a reset: a 400 by 400 square with an empty class. */
  const BlankInfo: ItemInfo := ItemInfo("", Some(400), Some(400), Some(""), SquarePlaceholder)

  function Item(id: int, alt: string, width: int, height: int, className: Option<string>): GalleryItem {
    GalleryItem(id, ItemInfo(alt, Some(width), Some(height), className,
      "/placeholder.svg?height=" + JsNumber.IntToString(height) + "&width=" + JsNumber.IntToString(width)))
  }

  /** The eleven pictures the screen starts with; pictures 3, 5, 8 and 11 have no layout class. */
  const SampleItems: seq<GalleryItem> := [
    Item(1, "Landscape View", 800, 500, Some("col-span-2")),
    Item(2, "Portrait Shot", 400, 600, Some("row-span-2")),
    Item(3, "Square Photo", 400, 400, None),
    Item(4, "Wide Shot", 800, 400, Some("col-span-2")),
    Item(5, "Square Memory", 400, 400, None),
    Item(6, "Landscape View", 600, 400, Some("col-span-2")),
    Item(7, "Portrait Shot", 400, 600, Some("row-span-2")),
    Item(8, "Square Photo", 400, 400, None),
    Item(9, "Wide Shot", 800, 400, Some("col-span-2")),
    Item(10, "Vertical View", 400, 600, Some("row-span-2")),
    Item(11, "Square Memory", 400, 400, None)
  ]

  function ValueOf(info: ItemInfo, f: ItemField): FieldValue {
    match f
    case Alt => Text(info.alt)
    case ClassName => if info.className.Some? then Text(info.className.value) else Absent
    case Width => Number(info.width)
    case Height => Number(info.height)
    case Image => Text(info.image)
  }

  /**
   * `{ ...prev, [name]: name === "width" || name === "height" ? parseInt(value) : value }`:
   * width and height take the parsed number, any other field the text as
   * typed, and every other field keeps its value.
   */
  function WithField(info: ItemInfo, f: ItemField, value: string): (r: ItemInfo)
    ensures ValueOf(r, f) == (if f == Width || f == Height then Number(JsNumber.ParseInt(value)) else Text(value))
    ensures forall g :: g != f ==> ValueOf(r, g) == ValueOf(info, g)
  {
    match f
    case Alt => info.(alt := value)
    case ClassName => info.(className := Some(value))
    case Width => info.(width := JsNumber.ParseInt(value))
    case Height => info.(height := JsNumber.ParseInt(value))
    case Image => info.(image := value)
  }

  /** Typing a whole number into a size field stores that number. */
  lemma SizeFieldStoresNumber(info: ItemInfo, f: ItemField, n: int)
    requires f == Width || f == Height
    ensures ValueOf(WithField(info, f, JsNumber.IntToString(n)), f) == Number(Some(n))
  {
    JsNumber.ParseIntToString(n);
  }

  function NotId(id: int): GalleryItem -> bool {
    (item: GalleryItem) => item.id != id
  }

  /** `items.filter(item => item.id !== id)` */
  function WithoutId(items: seq<GalleryItem>, id: int): seq<GalleryItem> {
    Listing.Filter(items, NotId(id))
  }

  /** Deleting keeps exactly the pictures with another id, and the order of what remains is the order it had. */
  lemma DeleteRemovesOnlyId(items: seq<GalleryItem>, more: seq<GalleryItem>, id: int, x: GalleryItem)
    ensures x in WithoutId(items, id) <==> x in items && x.id != id
    ensures WithoutId(items + more, id) == WithoutId(items, id) + WithoutId(more, id)
  {
    Listing.FilterMembers(items, NotId(id), x);
    Listing.FilterConcat(items, more, NotId(id));
  }

  /** The sample pictures carry the distinct ids 1 to 11. */
  lemma SampleIdsDistinct()
    ensures Listing.DistinctBy(SampleItems, ItemId)
    ensures Ids.NextId(Listing.Keys(SampleItems, ItemId)) == 12
  {
    Listing.IncreasingDistinct(SampleItems, ItemId);
    var ks := Listing.Keys(SampleItems, ItemId);
    assert ks[10] == 11;
  }

  class GalleryScreen {
    var galleryItems: seq<GalleryItem>
    /** The add form's draft. */
    var newItem: ItemInfo
    var showAddForm: bool

    /** Picture ids are pairwise distinct. */
    predicate Valid()
      reads this
    {
      Listing.DistinctBy(galleryItems, ItemId)
    }

    constructor()
      ensures Valid()
      ensures galleryItems == SampleItems && newItem == BlankInfo && !showAddForm
    {
      galleryItems := SampleItems;
      newItem := BlankInfo;
      showAddForm := false;
      SampleIdsDistinct();
    }

    /** The "Add New Image" / "Cancel" button. */
    method ToggleAddForm()
      requires Valid()
      modifies this
      ensures Valid()
      ensures showAddForm == !old(showAddForm) && galleryItems == old(galleryItems) && newItem == old(newItem)
    {
      showAddForm := !showAddForm;
    }

    /** `handleInputChange`: updates one field of the draft. */
    method HandleInputChange(f: ItemField, value: string)
      requires Valid()
      modifies this
      ensures Valid()
      ensures newItem == WithField(old(newItem), f, value)
      ensures galleryItems == old(galleryItems) && showAddForm == old(showAddForm)
    {
      newItem := WithField(newItem, f, value);
    }

    /**
     * `handleAddItem`: appends the draft under an id above every existing
     * id, then resets the draft and hides the form. Ids stay distinct.
     */
    method HandleAddItem()
      requires Valid()
      modifies this
      ensures Valid()
      ensures var newId := Ids.NextId(Listing.Keys(old(galleryItems), ItemId));
        galleryItems == old(galleryItems) + [GalleryItem(newId, old(newItem))]
        && newId !in Listing.Keys(old(galleryItems), ItemId)
      ensures newItem == BlankInfo && !showAddForm
    {
      var newId := Ids.NextId(Listing.Keys(galleryItems, ItemId));
      var added := GalleryItem(newId, newItem);
      Listing.AppendFreshDistinct(galleryItems, ItemId, added);
      galleryItems := galleryItems + [added];
      newItem := BlankInfo;
      showAddForm := false;
    }

    /** `handleDeleteItem`: removes the pictures with that id, keeping the rest in order. */
    method HandleDeleteItem(id: int)
      requires Valid()
      modifies this
      ensures Valid()
      ensures galleryItems == WithoutId(old(galleryItems), id)
      ensures newItem == old(newItem) && showAddForm == old(showAddForm)
    {
      Listing.FilterDistinct(galleryItems, ItemId, NotId(id));
      galleryItems := WithoutId(galleryItems, id);
    }
  }
}
