/** The page component: given the props of one rendered page, decides
    whether it is the cover, the table of contents or a content page, and
    what each of them shows. Styles and hover effects are not modelled. */
module BookPageContent {
  import opened BookData

  /** The props the reader passes to every page. The `onChapterClick`
      callback is represented by the chapter index each TOC entry hands it. */
  datatype PageProps = PageProps(
    pageNumber: int,
    totalPages: int,
    content: string,
    bookTitle: string,
    bookSubtitle: string,
    bookAuthor: string,
    chapters: seq<Chapter>)

  /** One line of the table of contents: the title it shows and the index
      it passes to `onChapterClick` when clicked. */
  datatype TocEntry = TocEntry(title: string, clickIndex: nat)

  /** What a page renders, one variant per branch of the component. */
  datatype PageView =
    | Cover(title: string, subtitle: string, author: string)
    | TableOfContents(entries: seq<TocEntry>)
    | Content(heading: string, text: string, footer: int)

  /** Heading of a content page: the title of chapter floor(pageNumber / 2)
      when that chapter exists and has a non-empty title, "Story" otherwise.
      Dafny's `/` by a positive divisor rounds towards minus infinity, like
      `Math.floor`; a negative index reads `undefined` and falls back too. */
  function Heading(pageNumber: int, chapters: seq<Chapter>): (h: string)
    ensures h != ""
    ensures (0 <= pageNumber / 2 < |chapters| && chapters[pageNumber / 2].title != "") ==>
              h == chapters[pageNumber / 2].title
    ensures (0 <= pageNumber / 2 < |chapters| && chapters[pageNumber / 2].title == "") ==>
              h == "Story"
    ensures !(0 <= pageNumber / 2 < |chapters|) ==> h == "Story"
  {
    var i := pageNumber / 2;
    if 0 <= i < |chapters| && chapters[i].title != "" then chapters[i].title else "Story"
  }

  /** The table of contents: `chapters.map((chapter, index) => ...)`,
      the entries for all but the last chapter, then the last chapter's
      entry appended at its own index. */
  function TocEntries(chapters: seq<Chapter>): (r: seq<TocEntry>)
    ensures |r| == |chapters|
    ensures forall k :: 0 <= k < |r| ==> r[k].title == chapters[k].title && r[k].clickIndex == k
  {
    if chapters == [] then []
    else
      var n := |chapters| - 1;
      TocEntries(chapters[..n]) + [TocEntry(chapters[n].title, n)]
  }

  /** The component itself: page 0 is the cover, page 1 the table of
      contents, every other page number a content page. */
  function Render(p: PageProps): (v: PageView)
    ensures v.Cover? <==> p.pageNumber == 0
    ensures v.TableOfContents? <==> p.pageNumber == 1
    ensures v.Content? <==> p.pageNumber != 0 && p.pageNumber != 1
    ensures v.Cover? ==> v == Cover(p.bookTitle, p.bookSubtitle, p.bookAuthor)
    ensures v.TableOfContents? ==>
              |v.entries| == |p.chapters| &&
              forall k :: 0 <= k < |v.entries| ==> v.entries[k] == TocEntry(p.chapters[k].title, k)
    ensures v.Content? ==>
              v.text == p.content && v.footer == p.pageNumber + 1 &&
              v.heading == Heading(p.pageNumber, p.chapters)
  {
    if p.pageNumber == 0 then
      Cover(p.bookTitle, p.bookSubtitle, p.bookAuthor)
    else if p.pageNumber == 1 then
      TableOfContents(TocEntries(p.chapters))
    else
      Content(Heading(p.pageNumber, p.chapters), p.content, p.pageNumber + 1)
  }

  /** `totalPages` never changes what a page shows, and `content` only
      shows on content pages: the cover and the table of contents ignore it. */
  lemma RenderIgnoresTotalAndContent(p: PageProps, totalPages: int, content: string)
    ensures Render(p.(totalPages := totalPages)) == Render(p)
    ensures (p.pageNumber == 0 || p.pageNumber == 1) ==>
              Render(p.(content := content)) == Render(p)
  {
  }
}
