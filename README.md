# The Quiet Library reader — page indexing model

This project models the page-indexing logic of the book reader in
`src/EnhancedBookReader.jsx` and its page component `src/BookPageContent.jsx`.

- **Data** (`book_data.dfy`, module `BookData`). A book has a title, a subtitle, an author and an ordered
  list of chapters. Each chapter has a title and an ordered list of page texts. "Cover" and
  "Table of Contents" are ordinary chapters of that list, as in the bundled data.
- **Page component** (`book_page_content.dfy`, module `BookPageContent`). `Render` maps the props of
  one page to a `PageView`:
  - page number 0 is the cover (title, subtitle, author);
  - page number 1 is the table of contents, one entry per chapter, each carrying the index it
    hands to `onChapterClick`;
  - every other page number is a content page with heading `chapters[floor(n / 2)].title`
    (falling back to "Story"), the page text, and footer `n + 1`.
- **Reader** (`enhanced_book_reader.dfy`, module `EnhancedBookReader`). It holds:
  - `AllPages`, the `flatMap` of the chapters' pages;
  - `SumPageCounts`, `Slice` and `PagesBefore`, which mirror the click handler's
    `slice(0, i).reduce(...)`;
  - `NavigationTarget`, the index handed to the page-flip view's `goToPage`;
  - `FlipBookPages`, the props of every page;
  - the bundled book as a constant;
  - a `Reader` class whose one field `currentPage` is overwritten by the `onFlip` handler.
    The counter under the book shows `currentPage + 1`.

The model follows the code as written. Two places do not match what the layout seems to intend,
and lemmas exhibit both:

- **Navigation offset.** A click on chapter `i` requests index `1 + (pages before i)`. That is one
  past the chapter's first page in the flattened list: `NavigationTargetIsOnePastChapterStart`,
  `NavigationTargetIsSecondPage`.
- **Heading lookup.** `floor(n / 2)` names the chapter owning page `n` when every chapter has
  exactly two pages (`HeadingMatchesOwnerForTwoPageChapters`); that condition is sufficient, not
  necessary. The bundled book starts with two one-page chapters. So page 2, the first Prologue page, is headed "Table of Contents"
  (`BundledPrologueHeadingMismatch`), and no page is ever headed "Keeper's Note"
  (`BundledKeepersNoteNeverHeading`).

No page comes before the cover: index 0 of the flattened list is the cover page. A click on
chapter `i` requests index `1 + (pages before i)`. A table-of-contents entry carries only its
chapter's title and its index.

## Model

| member | source | states |
|---|---|---|
| `BookPageContent.Render` | src/BookPageContent.jsx:13-192 | page 0 is exactly the cover with the book's title, subtitle and author; page 1 is exactly the table of contents; every other number gives a content page showing `content`, footer `pageNumber + 1` and the floor(n/2) heading |
| `BookPageContent.Heading` | src/BookPageContent.jsx:183 | the heading is never empty; it is the title of chapter floor(n/2) when that chapter exists and its title is non-empty, and "Story" when that chapter's title is empty or the index is out of range |
| `BookPageContent.TocEntries` | src/BookPageContent.jsx:151-168 | one entry per chapter, in chapter order; entry k shows chapter k's title and passes k to the click handler |
| `BookPageContent.RenderIgnoresTotalAndContent` | src/BookPageContent.jsx:3-14 | `totalPages` never changes the rendered page; `content` does not change the cover or the table of contents |
| `EnhancedBookReader.AllPages` | src/EnhancedBookReader.jsx:54 | every page text of every chapter appears in `allPages`; its exact layout is stated by `AllPagesAt` and `PageOwner` |
| `EnhancedBookReader.SumPageCounts` | src/EnhancedBookReader.jsx:144 | the `reduce` never goes below its seed and adds at least the first chapter's page count; `SumPageCountsIsFlattenedLength` gives its exact value |
| `EnhancedBookReader.PagesBefore` | src/EnhancedBookReader.jsx:142-144 | the slice-then-reduce count is 0 for chapter 0 and includes the first chapter for every later index; `PagesBeforeIsPrefixLength` gives its exact value |
| `EnhancedBookReader.AllPagesAppend` | src/EnhancedBookReader.jsx:54 | flattening distributes over concatenation of chapter lists |
| `EnhancedBookReader.AllPagesAt` | src/EnhancedBookReader.jsx:54 | page j of chapter i sits at index (pages before i) + j of `allPages`: chapter order and page order are kept |
| `EnhancedBookReader.PageOwner` | src/EnhancedBookReader.jsx:54 | every index of `allPages` is page j of some chapter i, at (pages before i) + j; nothing else enters the list |
| `EnhancedBookReader.SumPageCountsIsFlattenedLength` | src/EnhancedBookReader.jsx:142-144 | the `reduce` over page counts adds exactly `allPages.length` to its seed, so `allPages.length` is the sum of all page counts |
| `EnhancedBookReader.Slice` | src/EnhancedBookReader.jsx:143 | `slice(0, end)` returns a prefix of the chapters of length min(end, chapter count) |
| `EnhancedBookReader.PagesBeforeIsPrefixLength` | src/EnhancedBookReader.jsx:142-144 | the sliced-and-reduced count equals the length of the flattened prefix of chapters |
| `EnhancedBookReader.PagesBeforeStep` | src/EnhancedBookReader.jsx:142-144 | extending the slice by chapter i adds that chapter's page count |
| `EnhancedBookReader.NavigationTarget` | src/EnhancedBookReader.jsx:141-145 | the requested index is at least 1 |
| `EnhancedBookReader.NavigationTargetIsPrefixPlusOne` | src/EnhancedBookReader.jsx:142-145 | the requested index is 1 + the flattened length of the chapters before i; it is 1 for chapter 0 |
| `EnhancedBookReader.NavigationTargetSaturates` | src/EnhancedBookReader.jsx:143-145 | for i at or past the chapter count the slice clamps and the target is 1 + `allPages.length` |
| `EnhancedBookReader.NavigationTargetStep` | src/EnhancedBookReader.jsx:142-145 | from chapter i to i+1 the target grows by chapter i's page count, strictly when that chapter has a page |
| `EnhancedBookReader.NavigationTargetMonotone` | src/EnhancedBookReader.jsx:142-145 | the target never decreases as the chapter index grows |
| `EnhancedBookReader.NavigationTargetIsOnePastChapterStart` | src/EnhancedBookReader.jsx:141-145 | for a chapter with pages, `allPages[target - 1]` is its first page, so the request is one past the chapter start |
| `EnhancedBookReader.NavigationTargetIsSecondPage` | src/EnhancedBookReader.jsx:141-145 | for a chapter of two or more pages, `allPages[target]` is its second page |
| `EnhancedBookReader.FlipBookPages` | src/EnhancedBookReader.jsx:131-140 | one page per `allPages` entry; page k gets `pageNumber` k, `totalPages` = `allPages.length`, content `allPages[k]` and the book's title, subtitle, author and chapters |
| `EnhancedBookReader.RenderedPage` | src/EnhancedBookReader.jsx:131-147 | the rendered book shows the cover first, the table of contents second, and from index 2 the k-th page text with footer k+1 under the floor(k/2) heading |
| `EnhancedBookReader.TocClickLandsOnePastChapterStart` | src/BookPageContent.jsx:151-155 | clicking TOC entry k passes k, and the resulting request is one past chapter k's first page |
| `EnhancedBookReader.PagesBeforeTwoPageChapters` | src/EnhancedBookReader.jsx:142-144 | with two pages per chapter, chapter i starts at index 2i |
| `EnhancedBookReader.HeadingMatchesOwnerForTwoPageChapters` | src/BookPageContent.jsx:183 | with two pages and a non-empty title per chapter, page k belongs to chapter floor(k/2) and is headed by its title |
| `EnhancedBookReader.BundledChapterShape` | src/EnhancedBookReader.jsx:6-43 | the bundled data has five chapters: Cover and Table of Contents with one page each, then Prologue, The Lantern and Keeper's Note with two pages each |
| `EnhancedBookReader.BundledPageCount` | src/EnhancedBookReader.jsx:6-54 | the bundled book flattens to 8 pages |
| `EnhancedBookReader.BundledNavigationTargets` | src/EnhancedBookReader.jsx:10-145 | bundled targets are 1, 2, 3, 5, 7 for chapters 0 to 4 |
| `EnhancedBookReader.BundledNavigationTargetPastEnd` | src/EnhancedBookReader.jsx:141-145 | for every chapter index from 5 on, the clamped slice makes the bundled target 9 |
| `EnhancedBookReader.BundledPrologueHeadingMismatch` | src/BookPageContent.jsx:183 | bundled page 2 shows the first Prologue text under the heading "Table of Contents" with footer 3 |
| `EnhancedBookReader.BundledKeepersNoteNeverHeading` | src/BookPageContent.jsx:183 | no bundled page is headed "Keeper's Note" |
| `EnhancedBookReader.Reader.constructor` | src/EnhancedBookReader.jsx:47 | `currentPage` starts at 0, so the counter shows 1 |
| `EnhancedBookReader.Reader.PageCounter` | src/EnhancedBookReader.jsx:169 | the counter shows the 1-based number of the 0-based current index |
| `EnhancedBookReader.Reader.HandlePageChange` | src/EnhancedBookReader.jsx:56-58 | after a flip event carrying n, `currentPage` is n and the counter shows n + 1; the reader has no other state to change |

## Left out

- `src/InteractiveBookApp.jsx` is not part of this model. Its sizing is floating-point viewport arithmetic, its resize listener is host-event plumbing, and its table-of-contents page numbers are literal text.
- The page-flip view (`react-pageflip`) is foreign code. `goToPage` is represented by the index it receives, and a flip event by the index it carries. What the view does with an out-of-range index is not modelled.
- `EnhancedBookReader.NavigationTarget` is the index a click would request. The optional chaining `bookRef.current?.pageFlip?.goToPage` skips the request while the view is not mounted; that case is not modelled.
- The `isLoaded` mount effect, `framer-motion` animations and all inline style objects are presentation only.
- The hover handlers of the table-of-contents entries write DOM styles only.
- The `isCover` and `isToc` flags of the bundled data are never read, so the data model has no field for them.
- `EnhancedBookReader.NavigationTarget`: takes a non-negative chapter index, because the only caller passes a `map` index. A negative `slice` end is not modelled.
- `BookPageContent.PageProps`: a chapter always has a string title, so a chapter object without a `title` field is not modelled.
