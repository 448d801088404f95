/** The reader: flattens the chapters into the page list handed to the
    page-flip view, computes the page a table-of-contents click asks the
    view to turn to, and keeps the page counter shown under the book. The
    page-flip view itself is outside the model: a `goToPage` request is
    represented by the index it is given, and a flip event by the index it
    carries. */
module EnhancedBookReader {
  import opened BookData
  import opened BookPageContent

  /** The book shipped with the reader. */
  const BundledBook: Book := Book(
    "The Quiet Library",
    "A short tale of late-night stories",
    "Ashwin K.",
    [ Chapter("Cover", ["Cover Page"]),
      Chapter("Table of Contents", ["Table of Contents"]),
      Chapter("Prologue", [
        "Night had a way of tucking the city in like a soft blanket. The library, however, never quite slept.",
        "Shelves whispered the stories of a thousand lives; some in ink, some in memory."]),
      Chapter("The Lantern", [
        "Rhea found the lantern wedged between two encyclopedias. It hummed when she touched it.",
        "Light spilled like warm tea, and for a moment, the dust motes looked like tiny planets."]),
      Chapter("Keeper's Note", [
        "A scrawled note tucked into an atlas: 'Keep what you borrow, return yourself.'",
        "It was unclear if the note warned or invited. Rhea chose the latter."])
    ])

  // ---------------------------------------------------------------------
  // Flattening

  /** `chapters.flatMap(ch => ch.pages)`: every chapter's pages, in order. */
  function AllPages(chapters: seq<Chapter>): (r: seq<string>)
    ensures forall c, p :: c in chapters && p in c.pages ==> p in r
  {
    if chapters == [] then [] else chapters[0].pages + AllPages(chapters[1..])
  }

  /** `reduce((sum, ch) => sum + ch.pages.length, sum)`: a left fold
      adding up the page counts. */
  function SumPageCounts(sum: nat, chapters: seq<Chapter>): (total: nat)
    ensures total >= sum
    ensures chapters != [] ==> total >= sum + |chapters[0].pages|
    decreases |chapters|
  {
    if chapters == [] then sum else SumPageCounts(sum + |chapters[0].pages|, chapters[1..])
  }

  /** `slice(0, end)` for a non-negative `end`, which clamps to the length. */
  function Slice(chapters: seq<Chapter>, end: nat): (r: seq<Chapter>)
    ensures r <= chapters
    ensures |r| == if end <= |chapters| then end else |chapters|
  {
    if end <= |chapters| then chapters[..end] else chapters
  }

  /** Number of pages in the chapters before `chapterIndex`, computed as
      the click handler does: slice, then reduce from 0. */
  function PagesBefore(chapters: seq<Chapter>, chapterIndex: nat): (count: nat)
    ensures chapterIndex == 0 ==> count == 0
    ensures chapterIndex > 0 && chapters != [] ==> count >= |chapters[0].pages|
  {
    SumPageCounts(0, Slice(chapters, chapterIndex))
  }

  /** The index a table-of-contents click on `chapterIndex` hands to the
      view's `goToPage`: the page count before the chapter, plus one. */
  function NavigationTarget(chapters: seq<Chapter>, chapterIndex: nat): (target: nat)
    ensures target >= 1
  {
    PagesBefore(chapters, chapterIndex) + 1
  }

  lemma {:induction false} AllPagesAppend(a: seq<Chapter>, b: seq<Chapter>)
    ensures AllPages(a + b) == AllPages(a) + AllPages(b)
    decreases |a|
  {
    if a == [] {
      assert a + b == b;
    } else {
      assert (a + b)[1..] == a[1..] + b;
      AllPagesAppend(a[1..], b);
    }
  }

  /** The fold over the page counts adds exactly the length of the
      flattened page list to its starting value. */
  lemma {:induction false} SumPageCountsIsFlattenedLength(sum: nat, chapters: seq<Chapter>)
    ensures SumPageCounts(sum, chapters) == sum + |AllPages(chapters)|
    decreases |chapters|
  {
    if chapters != [] {
      SumPageCountsIsFlattenedLength(sum + |chapters[0].pages|, chapters[1..]);
    }
  }

  /** The page count before a chapter is the length of the flattened
      prefix of chapters. */
  lemma PagesBeforeIsPrefixLength(chapters: seq<Chapter>, chapterIndex: nat)
    ensures PagesBefore(chapters, chapterIndex) == |AllPages(Slice(chapters, chapterIndex))|
  {
    SumPageCountsIsFlattenedLength(0, Slice(chapters, chapterIndex));
  }

  /** Adding one more chapter to the prefix adds its page count. */
  lemma PagesBeforeStep(chapters: seq<Chapter>, i: nat)
    requires i < |chapters|
    ensures PagesBefore(chapters, i + 1) == PagesBefore(chapters, i) + |chapters[i].pages|
  {
    assert chapters[..i + 1] == chapters[..i] + [chapters[i]];
    AllPagesAppend(chapters[..i], [chapters[i]]);
    assert AllPages([chapters[i]]) == chapters[i].pages + AllPages([]);
    PagesBeforeIsPrefixLength(chapters, i);
    PagesBeforeIsPrefixLength(chapters, i + 1);
  }

  /** Page j of chapter i sits at index PagesBefore(i) + j of the
      flattened list: the flattening keeps chapter order and page order. */
  lemma AllPagesAt(chapters: seq<Chapter>, i: nat, j: nat)
    requires i < |chapters| && j < |chapters[i].pages|
    ensures PagesBefore(chapters, i) + j < |AllPages(chapters)|
    ensures AllPages(chapters)[PagesBefore(chapters, i) + j] == chapters[i].pages[j]
  {
    var before, rest := chapters[..i], chapters[i + 1..];
    assert chapters == before + ([chapters[i]] + rest);
    AllPagesAppend(before, [chapters[i]] + rest);
    assert AllPages([chapters[i]] + rest) == chapters[i].pages + AllPages(rest);
    PagesBeforeIsPrefixLength(chapters, i);
  }

  /** Every index of the flattened list is page j of some chapter i:
      nothing but the chapters' pages ends up in it. */
  lemma {:induction false} PageOwner(chapters: seq<Chapter>, k: nat) returns (i: nat, j: nat)
    requires k < |AllPages(chapters)|
    ensures i < |chapters| && j < |chapters[i].pages|
    ensures PagesBefore(chapters, i) + j == k
    ensures AllPages(chapters)[k] == chapters[i].pages[j]
    decreases |chapters|
  {
    assert chapters != [];
    var n := |chapters[0].pages|;
    if k < n {
      i, j := 0, k;
      assert Slice(chapters, 0) == [];
    } else {
      var i', j' := PageOwner(chapters[1..], k - n);
      i, j := i' + 1, j';
      assert Slice(chapters, i) == [chapters[0]] + Slice(chapters[1..], i');
      AllPagesAppend([chapters[0]], Slice(chapters[1..], i'));
      assert AllPages([chapters[0]]) == chapters[0].pages + AllPages([]);
      PagesBeforeIsPrefixLength(chapters, i);
      PagesBeforeIsPrefixLength(chapters[1..], i');
    }
    AllPagesAt(chapters, i, j);
  }

  // ---------------------------------------------------------------------
  // Navigation target

  /** The target is one more than the length of the flattened prefix;
      for the first chapter it is 1. */
  lemma NavigationTargetIsPrefixPlusOne(chapters: seq<Chapter>, chapterIndex: nat)
    ensures NavigationTarget(chapters, chapterIndex) == 1 + |AllPages(Slice(chapters, chapterIndex))|
    ensures chapterIndex == 0 ==> NavigationTarget(chapters, chapterIndex) == 1
  {
    PagesBeforeIsPrefixLength(chapters, chapterIndex);
  }

  /** Past the last chapter `slice` clamps, so the target stays at one
      past the whole book. */
  lemma NavigationTargetSaturates(chapters: seq<Chapter>, chapterIndex: nat)
    requires chapterIndex >= |chapters|
    ensures NavigationTarget(chapters, chapterIndex) == 1 + |AllPages(chapters)|
  {
    assert Slice(chapters, chapterIndex) == chapters;
    PagesBeforeIsPrefixLength(chapters, chapterIndex);
  }

  /** Moving to the next chapter moves the target by the chapter's page
      count, so strictly when the chapter has a page. */
  lemma NavigationTargetStep(chapters: seq<Chapter>, i: nat)
    requires i < |chapters|
    ensures NavigationTarget(chapters, i + 1) == NavigationTarget(chapters, i) + |chapters[i].pages|
    ensures chapters[i].pages != [] ==> NavigationTarget(chapters, i) < NavigationTarget(chapters, i + 1)
  {
    PagesBeforeStep(chapters, i);
  }

  /** The target never decreases with the chapter index. */
  lemma {:induction false} NavigationTargetMonotone(chapters: seq<Chapter>, i: nat, j: nat)
    requires i <= j
    ensures NavigationTarget(chapters, i) <= NavigationTarget(chapters, j)
    decreases j - i
  {
    if i < j {
      NavigationTargetMonotone(chapters, i, j - 1);
      if j - 1 < |chapters| {
        NavigationTargetStep(chapters, j - 1);
      } else {
        NavigationTargetSaturates(chapters, j - 1);
        NavigationTargetSaturates(chapters, j);
      }
    }
  }

  /** For a chapter with pages, the page just before the target is that
      chapter's first page: the request lands one past the chapter start. */
  lemma NavigationTargetIsOnePastChapterStart(chapters: seq<Chapter>, i: nat)
    requires i < |chapters| && chapters[i].pages != []
    ensures NavigationTarget(chapters, i) - 1 < |AllPages(chapters)|
    ensures AllPages(chapters)[NavigationTarget(chapters, i) - 1] == chapters[i].pages[0]
  {
    AllPagesAt(chapters, i, 0);
  }

  /** For a chapter of two pages or more the target is its second page,
      not its first. */
  lemma NavigationTargetIsSecondPage(chapters: seq<Chapter>, i: nat)
    requires i < |chapters| && |chapters[i].pages| >= 2
    ensures NavigationTarget(chapters, i) < |AllPages(chapters)|
    ensures AllPages(chapters)[NavigationTarget(chapters, i)] == chapters[i].pages[1]
  {
    AllPagesAt(chapters, i, 1);
  }

  // ---------------------------------------------------------------------
  // Rendering

  /** `allPages.map((pageContent, index) => <BookPageContent .../>)`: the
      props of every page handed to the page-flip view. */
  function FlipBookPages(book: Book): (r: seq<PageProps>)
    ensures |r| == |AllPages(book.chapters)|
    ensures forall k :: 0 <= k < |r| ==>
              r[k] == PageProps(k, |r|, AllPages(book.chapters)[k],
                                book.title, book.subtitle, book.author, book.chapters)
  {
    var pages := AllPages(book.chapters);
    seq(|pages|, k requires 0 <= k < |pages| =>
      PageProps(k, |pages|, pages[k], book.title, book.subtitle, book.author, book.chapters))
  }

  /** What the k-th page of the book shows: the cover first, the table of
      contents second, and from then on the k-th flattened page text with
      footer k + 1 and the heading of chapter floor(k / 2). */
  lemma RenderedPage(book: Book, k: nat)
    requires k < |AllPages(book.chapters)|
    ensures k == 0 ==> Render(FlipBookPages(book)[k]) == Cover(book.title, book.subtitle, book.author)
    ensures k == 1 ==> Render(FlipBookPages(book)[k]) == TableOfContents(TocEntries(book.chapters))
    ensures k >= 2 ==>
              Render(FlipBookPages(book)[k]) ==
              Content(Heading(k, book.chapters), AllPages(book.chapters)[k], k + 1)
  {
  }

  /** Clicking entry k of the rendered table of contents passes k to the
      click handler, which asks the view for the page one past the first
      page of chapter k. */
  lemma TocClickLandsOnePastChapterStart(book: Book, k: nat)
    requires 2 <= |AllPages(book.chapters)|
    requires k < |book.chapters| && book.chapters[k].pages != []
    ensures Render(FlipBookPages(book)[1]).TableOfContents?
    ensures k < |Render(FlipBookPages(book)[1]).entries|
    ensures Render(FlipBookPages(book)[1]).entries[k].clickIndex == k
    ensures NavigationTarget(book.chapters, k) - 1 < |AllPages(book.chapters)|
    ensures AllPages(book.chapters)[NavigationTarget(book.chapters, k) - 1] == book.chapters[k].pages[0]
  {
    NavigationTargetIsOnePastChapterStart(book.chapters, k);
  }

  /** PagesBefore is 2 * i when every chapter has exactly two pages. */
  lemma {:induction false} PagesBeforeTwoPageChapters(chapters: seq<Chapter>, i: nat)
    requires forall c :: c in chapters ==> |c.pages| == 2
    requires i <= |chapters|
    ensures PagesBefore(chapters, i) == 2 * i
    decreases i
  {
    if i == 0 {
      assert Slice(chapters, 0) == [];
    } else {
      PagesBeforeTwoPageChapters(chapters, i - 1);
      PagesBeforeStep(chapters, i - 1);
      assert chapters[i - 1] in chapters;
    }
  }

  /** The floor(k / 2) heading lookup names the chapter a page belongs to
      when every chapter has two pages and a non-empty title (a sufficient
      condition, not a necessary one). */
  lemma HeadingMatchesOwnerForTwoPageChapters(chapters: seq<Chapter>, k: nat)
    requires forall c :: c in chapters ==> |c.pages| == 2 && c.title != ""
    requires k < |AllPages(chapters)|
    ensures k / 2 < |chapters|
    ensures AllPages(chapters)[k] == chapters[k / 2].pages[k % 2]
    ensures Heading(k, chapters) == chapters[k / 2].title
  {
    var i, j := PageOwner(chapters, k);
    assert chapters[i] in chapters;
    PagesBeforeTwoPageChapters(chapters, i);
    assert k / 2 == i && k % 2 == j;
  }

  // ---------------------------------------------------------------------
  // The bundled book

  /** The bundled data: five chapters, Cover and Table of Contents with one
      page each, then Prologue, The Lantern and Keeper's Note with two. */
  lemma BundledChapterShape()
    ensures |BundledBook.chapters| == 5
    ensures BundledBook.chapters[0].title == "Cover" && |BundledBook.chapters[0].pages| == 1
    ensures BundledBook.chapters[1].title == "Table of Contents" && |BundledBook.chapters[1].pages| == 1
    ensures BundledBook.chapters[2].title == "Prologue" && |BundledBook.chapters[2].pages| == 2
    ensures BundledBook.chapters[3].title == "The Lantern" && |BundledBook.chapters[3].pages| == 2
    ensures BundledBook.chapters[4].title == "Keeper's Note" && |BundledBook.chapters[4].pages| == 2
  {
  }

  lemma BundledPageCount()
    ensures |AllPages(BundledBook.chapters)| == 8
  {
  }

  /** Targets for the bundled chapters: Cover 1, Table of Contents 2,
      Prologue 3, The Lantern 5, Keeper's Note 7. */
  lemma BundledNavigationTargets()
    ensures NavigationTarget(BundledBook.chapters, 0) == 1
    ensures NavigationTarget(BundledBook.chapters, 1) == 2
    ensures NavigationTarget(BundledBook.chapters, 2) == 3
    ensures NavigationTarget(BundledBook.chapters, 3) == 5
    ensures NavigationTarget(BundledBook.chapters, 4) == 7
  {
    var chs := BundledBook.chapters;
    BundledChapterShape();
    NavigationTargetIsPrefixPlusOne(chs, 0);
    NavigationTargetStep(chs, 0);
    NavigationTargetStep(chs, 1);
    NavigationTargetStep(chs, 2);
    NavigationTargetStep(chs, 3);
  }

  /** Any index past the last bundled chapter requests index 9. */
  lemma BundledNavigationTargetPastEnd(i: nat)
    requires i >= 5
    ensures NavigationTarget(BundledBook.chapters, i) == 9
  {
    BundledPageCount();
    NavigationTargetSaturates(BundledBook.chapters, i);
  }

  /** Page 2 shows the first Prologue text, yet its heading is "Table of
      Contents", because floor(2 / 2) = 1. */
  lemma BundledPrologueHeadingMismatch()
    ensures 2 < |FlipBookPages(BundledBook)|
    ensures Render(FlipBookPages(BundledBook)[2]) ==
              Content("Table of Contents", BundledBook.chapters[2].pages[0], 3)
  {
  }

  /** No page of the bundled book is headed "Keeper's Note", though its
      last two pages hold that chapter's text. */
  lemma BundledKeepersNoteNeverHeading(k: nat)
    requires k < |FlipBookPages(BundledBook)|
    ensures Render(FlipBookPages(BundledBook)[k]).Content? ==>
              Render(FlipBookPages(BundledBook)[k]).heading != "Keeper's Note"
  {
  }

  // ---------------------------------------------------------------------
  // Page counter

  /** The reader's state: the index of the page the view last reported. */
  class Reader {
    var currentPage: int

    /** `useState(0)`: the counter starts at page 1. */
    constructor ()
      ensures currentPage == 0 && PageCounter() == 1
    {
      currentPage := 0;
    }

    /** The number shown under the book: one more than the current index. */
    function PageCounter(): (shown: int)
      reads this
      ensures shown - 1 == currentPage
    {
      currentPage + 1
    }

    /** `onFlip` handler: stores the index the flip event carries. */
    method HandlePageChange(flippedTo: int)
      modifies this
      ensures currentPage == flippedTo
      ensures PageCounter() == flippedTo + 1
    {
      currentPage := flippedTo;
    }
  }
}
