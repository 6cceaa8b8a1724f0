/**
 * The public photo-of-the-week page: a month carousel that wraps around the
 * twelve month names, the photos of the selected month from a fixed
 * catalogue, and a detail modal for a clicked photo.
 */
module PotwCarousel {
  import opened Wrappers
  import Calendar

  const PortraitPlaceholder: string := "/placeholder.svg?height=600&width=400"

  /** A catalogue entry (its long description is not part of this model). */
  datatype Photo = Photo(id: int, week: int, month: string, theme: string, photographer: string, email: string, image: string)

  /** What the page lists for the selected month. */
  datatype Listed = NoPhotos | PhotoGrid(photos: seq<Photo>)

  const JanuaryPhotos: seq<Photo> := [
    Photo(1, 1, "January", "Nature's Patterns", "Priya Sharma", "24f1002346@ds.study.iitm.ac.in", "/images/week1.jpeg"),
    Photo(2, 2, "January", "Birds of Prey", "Rahul Verma", "24f1003421@ds.study.iitm.ac.in", "/images/week2.jpeg"),
    Photo(3, 3, "January", "Wild Encounters", "Ananya Patel", "24f1001234@ds.study.iitm.ac.in", "/images/week3.jpeg"),
    Photo(4, 4, "January", "Tools of the Trade", "Vikram Singh", "24f1004567@ds.study.iitm.ac.in", "/images/week4.jpeg")
  ]

  const FebruaryPhotos: seq<Photo> := [
    Photo(5, 1, "February", "Urban Landscapes", "Neha Gupta", "24f1005678@ds.study.iitm.ac.in", PortraitPlaceholder),
    Photo(6, 2, "February", "Reflections", "Arjun Mehta", "24f1006789@ds.study.iitm.ac.in", PortraitPlaceholder),
    Photo(7, 3, "February", "Macro World", "Divya Sharma", "24f1007890@ds.study.iitm.ac.in", PortraitPlaceholder),
    Photo(8, 4, "February", "Silhouettes", "Karan Malhotra", "24f1008901@ds.study.iitm.ac.in", PortraitPlaceholder)
  ]

  const MarchPhotos: seq<Photo> := [
    Photo(9, 1, "March", "Street Photography", "Meera Reddy", "24f1009012@ds.study.iitm.ac.in", PortraitPlaceholder),
    Photo(10, 2, "March", "Abstract Patterns", "Rohan Joshi", "24f1000123@ds.study.iitm.ac.in", PortraitPlaceholder),
    Photo(11, 3, "March", "Golden Hour", "Aisha Khan", "24f1001234@ds.study.iitm.ac.in", PortraitPlaceholder),
    Photo(12, 4, "March", "Minimalism", "Sanjay Patel", "24f1002345@ds.study.iitm.ac.in", PortraitPlaceholder)
  ]

  /** The catalogue: photos for January to March only. */
  const Catalogue: map<string, seq<Photo>> :=
    map["January" := JanuaryPhotos, "February" := FebruaryPhotos, "March" := MarchPhotos]

  /**
   * `months[(months.indexOf(m) + 1) % 12]` over a list of twelve names. The
   * dividend is never negative (the index is at least -1), so the remainder
   * agrees with JavaScript's; a name not in the list moves to the first one.
   */
  function NextIn(months: seq<string>, m: string): (r: string)
    requires |months| == 12
    ensures r in months
  {
    months[(Calendar.IndexOf(months, m) + 1) % 12]
  }

  /** `months[(months.indexOf(m) - 1 + 12) % 12]`, again with a non-negative dividend. */
  function PrevIn(months: seq<string>, m: string): (r: string)
    requires |months| == 12
    ensures r in months
  {
    months[(Calendar.IndexOf(months, m) - 1 + 12) % 12]
  }

  /** The position after `i` and the one before it, going round twelve positions. */
  function Succ(i: int): int { if i == 11 then 0 else i + 1 }
  function Pred(i: int): int { if i == 0 then 11 else i - 1 }

  /** With distinct names, the name at position `i` moves forward to position `i + 1` and back to `i - 1`, round the ends. */
  lemma StepAt(months: seq<string>, i: int)
    requires |months| == 12 && Calendar.Distinct(months) && 0 <= i < 12
    ensures NextIn(months, months[i]) == months[Succ(i)]
    ensures PrevIn(months, months[i]) == months[Pred(i)]
  {
    Calendar.IndexOfDistinct(months, i);
    assert (i + 1) % 12 == Succ(i) && (i - 1 + 12) % 12 == Pred(i);
  }

  /** With distinct names, a step forward and a step back undo each other and stay in the list. */
  lemma StepsUndo(months: seq<string>, m: string)
    requires |months| == 12 && Calendar.Distinct(months) && m in months
    ensures NextIn(months, m) in months && PrevIn(months, m) in months
    ensures PrevIn(months, NextIn(months, m)) == m
    ensures NextIn(months, PrevIn(months, m)) == m
  {
    var i := Calendar.IndexOf(months, m);
    StepAt(months, i);
    StepAt(months, Succ(i));
    StepAt(months, Pred(i));
  }

  /** The name reached after `n` presses of the next button. */
  function AdvanceIn(months: seq<string>, m: string, n: nat): string
    requires |months| == 12
    decreases n
  {
    if n == 0 then m else AdvanceIn(months, NextIn(months, m), n - 1)
  }

  /** The position reached from `i` after `n` steps forward. */
  function Rotate(i: int, n: nat): (r: int)
    requires 0 <= i < 12
    ensures 0 <= r < 12
    decreases n
  {
    if n == 0 then i else Rotate(Succ(i), n - 1)
  }

  /** `n` steps forward from position `i` land on position `(i + n) % 12`. */
  lemma {:induction false} RotateMod(i: int, n: nat)
    requires 0 <= i < 12
    ensures Rotate(i, n) == (i + n) % 12
    decreases n
  {
    if n > 0 {
      RotateMod(Succ(i), n - 1);
      if i == 11 {
        assert i + n == (n - 1) + 12;
      }
    }
  }

  /** `n` presses from the name at position `i` land on the name at position `(i + n) % 12`. */
  lemma {:induction false} AdvanceInAt(months: seq<string>, i: int, n: nat)
    requires |months| == 12 && Calendar.Distinct(months) && 0 <= i < 12
    ensures AdvanceIn(months, months[i], n) == months[Rotate(i, n)]
    decreases n
  {
    if n > 0 {
      AdvanceStep(months, i, n);
      AdvanceInAt(months, Succ(i), n - 1);
    }
  }

  lemma AdvanceStep(months: seq<string>, i: int, n: nat)
    requires |months| == 12 && Calendar.Distinct(months) && 0 <= i < 12 && n > 0
    ensures AdvanceIn(months, months[i], n) == AdvanceIn(months, months[Succ(i)], n - 1)
  {
    StepAt(months, i);
  }

  lemma FullTurn(i: int)
    requires 0 <= i < 12
    ensures (i + 12) % 12 == i
  {
  }

  /** Twelve presses come back to the name one started from. */
  lemma FullCircle(months: seq<string>, m: string)
    requires |months| == 12 && Calendar.Distinct(months) && m in months
    ensures AdvanceIn(months, m, 12) == m
  {
    var i := Calendar.IndexOf(months, m);
    AdvanceInAt(months, i, 12);
    RotateMod(i, 12);
    FullTurn(i);
  }

  /** The carousel's next and previous buttons and `n` presses of next, over the twelve month names. */
  function NextMonth(m: string): string { NextIn(Calendar.Months, m) }
  function PrevMonth(m: string): string { PrevIn(Calendar.Months, m) }
  function Advance(m: string, n: nat): string { AdvanceIn(Calendar.Months, m, n) }

  /** Every month moves to the following one and back to the preceding one, wrapping between December and January. */
  lemma NextMonthAt(i: int)
    requires 0 <= i < 12
    ensures NextMonth(Calendar.Months[i]) == Calendar.Months[Succ(i)] && NextMonth(Calendar.Months[i]) in Calendar.Months
    ensures PrevMonth(Calendar.Months[i]) == Calendar.Months[Pred(i)] && PrevMonth(Calendar.Months[i]) in Calendar.Months
  {
    Calendar.MonthsDistinct();
    StepAt(Calendar.Months, i);
  }

  /** December is followed by January, and January preceded by December. */
  lemma CarouselWraps()
    ensures NextMonth("December") == "January"
    ensures PrevMonth("January") == "December"
  {
    NextMonthAt(11);
    NextMonthAt(0);
  }

  /** Next then previous, or previous then next, returns to the month one started from. */
  lemma NextPrevInverse(m: string)
    requires m in Calendar.Months
    ensures NextMonth(m) in Calendar.Months && PrevMonth(m) in Calendar.Months
    ensures PrevMonth(NextMonth(m)) == m
    ensures NextMonth(PrevMonth(m)) == m
  {
    Calendar.MonthsDistinct();
    StepsUndo(Calendar.Months, m);
  }

  /** Twelve presses of the next button come back to the starting month. */
  lemma TwelveNextsReturn(m: string)
    requires m in Calendar.Months
    ensures Advance(m, 12) == m
  {
    Calendar.MonthsDistinct();
    FullCircle(Calendar.Months, m);
  }

  /** The photo list for a month: the grid when its bucket holds photos, else the "No photos available" message. */
  function ListedFor(month: string): (l: Listed)
    ensures l.NoPhotos? <==> month !in Catalogue || |Catalogue[month]| == 0
    ensures l.PhotoGrid? ==> l.photos == Catalogue[month]
  {
    if month in Catalogue && |Catalogue[month]| > 0 then PhotoGrid(Catalogue[month]) else NoPhotos
  }

  /**
   * January to March each list four photos, for weeks 1 to 4 in order, with
   * ids 1 to 12 across the three months; every later month shows no photos.
   */
  lemma CatalogueShape(i: int)
    requires 0 <= i < 12
    ensures i < 3 ==> (
      ListedFor(Calendar.Months[i]).PhotoGrid?
      && |Catalogue[Calendar.Months[i]]| == 4
      && forall w :: 0 <= w < 4 ==>
           Catalogue[Calendar.Months[i]][w].week == w + 1
           && Catalogue[Calendar.Months[i]][w].id == 4 * i + w + 1
           && Catalogue[Calendar.Months[i]][w].month == Calendar.Months[i])
    ensures i >= 3 ==> ListedFor(Calendar.Months[i]).NoPhotos?
  {
    assert Catalogue.Keys == {"January", "February", "March"};
    Calendar.MonthsDistinct();
  }

  class PotwPage {
    var selectedMonth: string
    var selectedPhoto: Option<Photo>
    var showModal: bool

    /** The selected month is always one of the twelve names. */
    predicate Valid()
      reads this
    {
      selectedMonth in Calendar.Months
    }

    constructor()
      ensures Valid()
      ensures selectedMonth == "January" && selectedPhoto.None? && !showModal
    {
      selectedMonth := "January";
      selectedPhoto := None;
      showModal := false;
    }

    /** The detail modal is open when it is flagged and a photo is selected. */
    predicate ModalOpen()
      reads this
    {
      showModal && selectedPhoto.Some?
    }

    method HandleNextMonth()
      requires Valid()
      modifies this
      ensures Valid()
      ensures selectedMonth == NextMonth(old(selectedMonth))
      ensures selectedPhoto == old(selectedPhoto) && showModal == old(showModal)
    {
      NextPrevInverse(selectedMonth);
      selectedMonth := NextMonth(selectedMonth);
    }

    method HandlePrevMonth()
      requires Valid()
      modifies this
      ensures Valid()
      ensures selectedMonth == PrevMonth(old(selectedMonth))
      ensures selectedPhoto == old(selectedPhoto) && showModal == old(showModal)
    {
      NextPrevInverse(selectedMonth);
      selectedMonth := PrevMonth(selectedMonth);
    }

    /** `handlePhotoClick` on one of the listed photos: selects it and opens the modal. */
    method HandlePhotoClick(photo: Photo)
      requires Valid() && ListedFor(selectedMonth).PhotoGrid? && photo in ListedFor(selectedMonth).photos
      modifies this
      ensures Valid() && ModalOpen()
      ensures selectedPhoto == Some(photo) && selectedMonth == old(selectedMonth)
    {
      selectedPhoto := Some(photo);
      showModal := true;
    }

    /** The backdrop or the close button: hides the modal but keeps the selected photo. */
    method CloseModal()
      requires Valid()
      modifies this
      ensures Valid() && !ModalOpen()
      ensures !showModal && selectedPhoto == old(selectedPhoto) && selectedMonth == old(selectedMonth)
    {
      showModal := false;
    }
  }
}
