/** The book description shared by the reader and the page component:
    a title, a subtitle, an author and an ordered list of chapters, each
    an ordered list of page texts. "Cover" and "Table of Contents" are
    ordinary chapters of this list, exactly as in the bundled data. */
module BookData {

  datatype Chapter = Chapter(title: string, pages: seq<string>)

  datatype Book = Book(title: string, subtitle: string, author: string, chapters: seq<Chapter>)
}
