/**
 * The photo-of-the-week editor of the admin dashboard: photos kept in one
 * bucket per month name, a month selector, a draft for the add form, and
 * deletion by id across every month.
 */
module PotwAdmin {
  import opened Wrappers
  import Calendar
  import Ids
  import Listing
  import JsNumber

  const PortraitPlaceholder: string := "/placeholder.svg?height=600&width=400"

  datatype WeeklyPhoto = WeeklyPhoto(
    id: int, week: Option<int>, month: string, theme: string, photographer: string,
    email: string, description: string, image: string)

  /** The add form's draft; `week` holds the text of the chosen option. */
  datatype PhotoDraft = PhotoDraft(
    week: string, theme: string, photographer: string, email: string, description: string, image: string)

  /** The form inputs, by their `name` attribute. */
  datatype PhotoField = Week | Theme | Photographer | Email | Description | Image

  /** The photos of the record, one list per month name. */
  type Buckets = map<string, seq<WeeklyPhoto>>

  /** What the photo list shows for the selected month. */
  datatype Listed = EmptyState | PhotoGrid(photos: seq<WeeklyPhoto>)

  function PhotoId(p: WeeklyPhoto): int { p.id }

  /** The draft after a reset: week 1, empty text and the portrait placeholder. */
  const BlankDraft: PhotoDraft := PhotoDraft("1", "", "", "", "", PortraitPlaceholder)

  const JanuaryPhotos: seq<WeeklyPhoto> := [
    WeeklyPhoto(1, Some(1), "January", "Nature's Patterns", "Priya Sharma", "24f1002346@ds.study.iitm.ac.in",
      "This beautiful butterfly was captured during early morning at the campus garden. The intricate patterns on its wings showcase nature's artistic precision and beauty.",
      "/images/week1.jpeg"),
    WeeklyPhoto(2, Some(2), "January", "Birds of Prey", "Rahul Verma", "24f1003421@ds.study.iitm.ac.in",
      "This hawk was photographed in its natural habitat, perched on a branch scanning for prey.",
      "/images/week2.jpeg"),
    WeeklyPhoto(3, Some(3), "January", "Wild Encounters", "Ananya Patel", "24f1001234@ds.study.iitm.ac.in",
      "This leopard was captured during a wildlife photography expedition.",
      "/images/week3.jpeg"),
    WeeklyPhoto(4, Some(4), "January", "Tools of the Trade", "Vikram Singh", "24f1004567@ds.study.iitm.ac.in",
      "This Canon telephoto lens represents the essential equipment of a wildlife photographer.",
      "/images/week4.jpeg")
  ]

  const FebruaryPhotos: seq<WeeklyPhoto> := [
    WeeklyPhoto(5, Some(1), "February", "Urban Landscapes", "Neha Gupta", "24f1005678@ds.study.iitm.ac.in",
      "This cityscape captures the contrast between modern architecture and natural elements.",
      PortraitPlaceholder)
  ]

  /** The record the screen starts with: four January photos and one February photo. */
  const SamplePhotos: Buckets := map["January" := JanuaryPhotos, "February" := FebruaryPhotos]

  function FieldOf(d: PhotoDraft, f: PhotoField): string {
    match f
    case Week => d.week
    case Theme => d.theme
    case Photographer => d.photographer
    case Email => d.email
    case Description => d.description
    case Image => d.image
  }

  /** `{ ...prev, [name]: value }`: only the named field changes. */
  function WithField(d: PhotoDraft, f: PhotoField, value: string): (r: PhotoDraft)
    ensures FieldOf(r, f) == value
    ensures forall g :: g != f ==> FieldOf(r, g) == FieldOf(d, g)
  {
    match f
    case Week => d.(week := value)
    case Theme => d.(theme := value)
    case Photographer => d.(photographer := value)
    case Email => d.(email := value)
    case Description => d.(description := value)
    case Image => d.(image := value)
  }

  /** The photo the add form submits: the draft's text, its week parsed as a number, in the selected month. */
  function PhotoFromDraft(id: int, d: PhotoDraft, month: string): (p: WeeklyPhoto)
    ensures p.id == id && p.month == month && p.week == JsNumber.ParseInt(d.week)
  {
    WeeklyPhoto(id, JsNumber.ParseInt(d.week), month, d.theme, d.photographer, d.email, d.description, d.image)
  }

  /** Choosing the option for week `n` stores week `n` in the submitted photo. */
  lemma WeekOptionParsed(d: PhotoDraft, n: int, id: int, month: string)
    ensures PhotoFromDraft(id, d.(week := JsNumber.IntToString(n)), month).week == Some(n)
  {
    JsNumber.ParseIntToString(n);
  }

  /** A month's photos, or none when the month has no bucket. */
  function BucketOf(m: Buckets, month: string): (b: seq<WeeklyPhoto>)
    ensures month in m ==> b == m[month]
    ensures month !in m ==> b == []
  {
    if month in m then m[month] else []
  }

  /** Every photo sits in the bucket of its own month. */
  predicate InOwnBucket(m: Buckets) {
    forall k, x :: k in m && x in m[k] ==> x.month == k
  }

  /** No id occurs twice, within a bucket or across buckets. */
  predicate IdsDistinct(m: Buckets) {
    (forall k :: k in m ==> Listing.DistinctBy(m[k], PhotoId))
    && (forall k1, k2, x, y :: k1 in m && k2 in m && k1 != k2 && x in m[k1] && y in m[k2] ==> x.id != y.id)
  }

  /** Every id in the record is below `n`. */
  predicate Above(m: Buckets, n: int) {
    forall k, x :: k in m && x in m[k] ==> x.id < n
  }

  predicate HasId(m: Buckets, id: int) {
    exists k, x :: k in m && x in m[k] && x.id == id
  }

  /** The empty state shows for a month with no bucket and for an emptied one. */
  function ListedFor(m: Buckets, month: string): (l: Listed)
    ensures l.EmptyState? <==> |BucketOf(m, month)| == 0
    ensures l.PhotoGrid? ==> l.photos == m[month]
  {
    if month in m && |m[month]| > 0 then PhotoGrid(m[month]) else EmptyState
  }

  function NotId(id: int): WeeklyPhoto -> bool {
    (p: WeeklyPhoto) => p.id != id
  }

  /** `photos.filter(photo => photo.id !== id)` */
  function WithoutId(photos: seq<WeeklyPhoto>, id: int): seq<WeeklyPhoto> {
    Listing.Filter(photos, NotId(id))
  }

  /** The record after deleting `id` from every month; every month keeps its bucket. */
  function DeletedEverywhere(m: Buckets, id: int): (r: Buckets)
    ensures r.Keys == m.Keys
  {
    map k | k in m :: WithoutId(m[k], id)
  }

  /**
   * `Math.max(...Object.values(m).flat().map(p => p.id), 0) + 1`: one above
   * the largest id of any month (and at least 1).
   */
  method NextPhotoId(m: Buckets) returns (newId: int)
    ensures newId >= 1 && Above(m, newId)
    ensures newId == 1 || HasId(m, newId - 1)
  {
    var best := 0;
    var rest := m.Keys;
    while rest != {}
      invariant rest <= m.Keys
      invariant best >= 0
      invariant forall k, x :: k in m && k !in rest && x in m[k] ==> x.id <= best
      invariant best == 0 || HasId(m, best)
      decreases |rest|
    {
      var k :| k in rest;
      var bucket := m[k];
      var ks := Listing.Keys(bucket, PhotoId);
      var top := Ids.MaxOrZero(ks);
      forall x | x in bucket ensures x.id <= top {
        var i :| 0 <= i < |bucket| && bucket[i] == x;
        assert ks[i] == x.id;
      }
      if top > best {
        var i :| 0 <= i < |ks| && ks[i] == top;
        assert bucket[i] in m[k] && bucket[i].id == top;
        best := top;
      }
      rest := rest - {k};
    }
    newId := best + 1;
  }

  /**
   * The body of the delete handler's state update: a copy of the record in
   * which each month name in turn has its bucket filtered.
   */
  method DeleteFromEveryMonth(m: Buckets, id: int) returns (updated: Buckets)
    ensures updated == DeletedEverywhere(m, id)
  {
    updated := m;
    var rest := m.Keys;
    while rest != {}
      invariant rest <= m.Keys
      invariant updated.Keys == m.Keys
      invariant forall k :: k in updated ==> updated[k] == if k in rest then m[k] else WithoutId(m[k], id)
      decreases |rest|
    {
      var k :| k in rest;
      updated := updated[k := WithoutId(updated[k], id)];
      rest := rest - {k};
    }
    DeletedEverywhereByMonth(m, id, updated);
  }

  /** A record with the same months, each bucket filtered, is the record after deletion. */
  lemma DeletedEverywhereByMonth(m: Buckets, id: int, updated: Buckets)
    requires updated.Keys == m.Keys
    requires forall k :: k in updated ==> updated[k] == WithoutId(m[k], id)
    ensures updated == DeletedEverywhere(m, id)
  {
    var target := DeletedEverywhere(m, id);
    assert forall k :: k in updated ==> updated[k] == target[k];
  }

  /** Deleting keeps every month, keeps in each exactly its photos with another id, and leaves the id nowhere. */
  lemma DeleteEverywhereMeaning(m: Buckets, id: int, k: string, x: WeeklyPhoto)
    requires k in m
    ensures x in DeletedEverywhere(m, id)[k] <==> x in m[k] && x.id != id
    ensures !HasId(DeletedEverywhere(m, id), id)
  {
    var r := DeletedEverywhere(m, id);
    Listing.FilterMembers(m[k], NotId(id), x);
    if HasId(r, id) {
      var k2: string, y: WeeklyPhoto :| k2 in r && y in r[k2] && y.id == id;
      Listing.FilterMembers(m[k2], NotId(id), y);
      assert false;
    }
  }

  /** Deleting keeps every photo in its month's bucket and ids distinct. */
  lemma DeletePreservesInvariant(m: Buckets, id: int)
    requires InOwnBucket(m) && IdsDistinct(m)
    ensures InOwnBucket(DeletedEverywhere(m, id)) && IdsDistinct(DeletedEverywhere(m, id))
  {
    var r := DeletedEverywhere(m, id);
    forall k, x | k in r && x in r[k] ensures x in m[k] {
      Listing.FilterMembers(m[k], NotId(id), x);
    }
    forall k | k in r ensures Listing.DistinctBy(r[k], PhotoId) {
      Listing.FilterDistinct(m[k], PhotoId, NotId(id));
    }
  }

  /** Adding a photo with an id above every id, in its own month's bucket, keeps the invariant. */
  lemma AddPreservesInvariant(m: Buckets, month: string, p: WeeklyPhoto)
    requires InOwnBucket(m) && IdsDistinct(m)
    requires Above(m, p.id) && p.month == month
    ensures InOwnBucket(m[month := BucketOf(m, month) + [p]])
    ensures IdsDistinct(m[month := BucketOf(m, month) + [p]])
  {
    AddKeepsOwnBucket(m, month, p);
    AddKeepsIdsDistinct(m, month, p);
  }

  lemma AddKeepsOwnBucket(m: Buckets, month: string, p: WeeklyPhoto)
    requires InOwnBucket(m) && p.month == month
    ensures InOwnBucket(m[month := BucketOf(m, month) + [p]])
  {
    var b := BucketOf(m, month);
    var r := m[month := b + [p]];
    forall k: string, x: WeeklyPhoto | k in r && x in r[k] ensures x.month == k {
      if k == month && x != p {
        assert x in b;
      }
    }
  }

  lemma AddKeepsIdsDistinct(m: Buckets, month: string, p: WeeklyPhoto)
    requires IdsDistinct(m) && Above(m, p.id)
    ensures IdsDistinct(m[month := BucketOf(m, month) + [p]])
  {
    var b := BucketOf(m, month);
    var r := m[month := b + [p]];
    forall i | 0 <= i < |b| ensures b[i].id < p.id {
      assert b[i] in m[month];
    }
    Listing.AppendAboveDistinct(b, PhotoId, p);
    forall k: string, x: WeeklyPhoto | k in r && x in r[k] ensures x == p || x in m[k] {
      if k == month && x != p {
        assert x in b;
      }
    }
  }

  lemma JanuaryFacts()
    ensures Listing.DistinctBy(JanuaryPhotos, PhotoId)
    ensures forall x :: x in JanuaryPhotos ==> x.id <= 4 && x.month == "January"
  {
    Listing.IncreasingDistinct(JanuaryPhotos, PhotoId);
  }

  lemma FebruaryFacts()
    ensures Listing.DistinctBy(FebruaryPhotos, PhotoId)
    ensures forall x :: x in FebruaryPhotos ==> x.id == 5 && x.month == "February"
  {
  }

  /** Two months' buckets, each holding only its own month's photos, and ids in the first below those in the second. */
  lemma TwoBucketsInvariant(k1: string, b1: seq<WeeklyPhoto>, k2: string, b2: seq<WeeklyPhoto>, split: int)
    requires k1 != k2
    requires Listing.DistinctBy(b1, PhotoId) && Listing.DistinctBy(b2, PhotoId)
    requires forall x :: x in b1 ==> x.id <= split && x.month == k1
    requires forall x :: x in b2 ==> x.id > split && x.month == k2
    ensures InOwnBucket(map[k1 := b1, k2 := b2]) && IdsDistinct(map[k1 := b1, k2 := b2])
  {
  }

  /** The starting record keeps every photo in its month's bucket, with distinct ids. */
  lemma SampleInvariant()
    ensures InOwnBucket(SamplePhotos) && IdsDistinct(SamplePhotos)
  {
    JanuaryFacts();
    FebruaryFacts();
    TwoBucketsInvariant("January", JanuaryPhotos, "February", FebruaryPhotos, 4);
  }

  class PotwScreen {
    var selectedMonth: string
    var showAddForm: bool
    var newPhoto: PhotoDraft
    var weeklyPhotos: Buckets

    /** The selected month is one of the twelve names; every photo is in its month's bucket; ids are distinct. */
    predicate Valid()
      reads this
    {
      selectedMonth in Calendar.Months && InOwnBucket(weeklyPhotos) && IdsDistinct(weeklyPhotos)
    }

    constructor()
      ensures Valid()
      ensures selectedMonth == "January" && !showAddForm && newPhoto == BlankDraft && weeklyPhotos == SamplePhotos
    {
      selectedMonth := "January";
      showAddForm := false;
      newPhoto := BlankDraft;
      weeklyPhotos := SamplePhotos;
      SampleInvariant();
    }

    /** What the list shows for the selected month. */
    function Render(): Listed
      reads this
    {
      ListedFor(weeklyPhotos, selectedMonth)
    }

    /** Either month selector: sets the month from the twelve names. */
    method SelectMonth(month: string)
      requires Valid() && month in Calendar.Months
      modifies this
      ensures Valid()
      ensures selectedMonth == month && weeklyPhotos == old(weeklyPhotos)
      ensures newPhoto == old(newPhoto) && showAddForm == old(showAddForm)
    {
      selectedMonth := month;
    }

    /** The header's "Add New Photo" / "Cancel" button. */
    method ToggleAddForm()
      requires Valid()
      modifies this
      ensures Valid()
      ensures showAddForm == !old(showAddForm)
      ensures selectedMonth == old(selectedMonth) && weeklyPhotos == old(weeklyPhotos) && newPhoto == old(newPhoto)
    {
      showAddForm := !showAddForm;
    }

    /** The empty state's "Add Photo" button. */
    method OpenAddForm()
      requires Valid()
      modifies this
      ensures Valid()
      ensures showAddForm
      ensures selectedMonth == old(selectedMonth) && weeklyPhotos == old(weeklyPhotos) && newPhoto == old(newPhoto)
    {
      showAddForm := true;
    }

    /** `handleInputChange`: updates one field of the draft. */
    method HandleInputChange(f: PhotoField, value: string)
      requires Valid()
      modifies this
      ensures Valid()
      ensures newPhoto == WithField(old(newPhoto), f, value)
      ensures selectedMonth == old(selectedMonth) && weeklyPhotos == old(weeklyPhotos) && showAddForm == old(showAddForm)
    {
      newPhoto := WithField(newPhoto, f, value);
    }

    /**
     * `handleAddPhoto`: the draft, under an id one above the largest id of any
     * month, is appended to the selected month's bucket (created when
     * missing); every other month is untouched; then the draft is reset and
     * the form hidden.
     */
    method HandleAddPhoto()
      requires Valid()
      modifies this
      ensures Valid()
      ensures selectedMonth == old(selectedMonth) && newPhoto == BlankDraft && !showAddForm
      ensures selectedMonth in weeklyPhotos && |weeklyPhotos[selectedMonth]| >= 1
      ensures var p := weeklyPhotos[selectedMonth][|weeklyPhotos[selectedMonth]| - 1];
        weeklyPhotos == old(weeklyPhotos)[selectedMonth := BucketOf(old(weeklyPhotos), selectedMonth) + [p]]
        && p == PhotoFromDraft(p.id, old(newPhoto), selectedMonth)
        && p.id >= 1 && Above(old(weeklyPhotos), p.id)
        && (p.id == 1 || HasId(old(weeklyPhotos), p.id - 1))
      ensures Render().PhotoGrid?
    {
      var newId := NextPhotoId(weeklyPhotos);
      var photo := PhotoFromDraft(newId, newPhoto, selectedMonth);
      AddPreservesInvariant(weeklyPhotos, selectedMonth, photo);
      weeklyPhotos := weeklyPhotos[selectedMonth := BucketOf(weeklyPhotos, selectedMonth) + [photo]];
      newPhoto := BlankDraft;
      showAddForm := false;
    }

    /**
     * `handleDeletePhoto`: goes through the month names, removing the id from
     * each bucket in turn. Every month keeps its bucket, emptied or not.
     */
    method HandleDeletePhoto(id: int)
      requires Valid()
      modifies this
      ensures Valid()
      ensures weeklyPhotos == DeletedEverywhere(old(weeklyPhotos), id)
      ensures selectedMonth == old(selectedMonth) && newPhoto == old(newPhoto) && showAddForm == old(showAddForm)
    {
      var updated := DeleteFromEveryMonth(weeklyPhotos, id);
      DeletePreservesInvariant(weeklyPhotos, id);
      weeklyPhotos := updated;
    }
  }
}
