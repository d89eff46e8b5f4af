/** The records the pages and dialogs exchange with the services
    (src/modules/author/types/author.type.ts, source/types/source.type.ts,
    src/types/pagination/pagination.type.ts). Optional properties are
    `Option`s. */
module Entities {
  import opened Wrappers

  /** `BookSimpleType`, of which the model uses the id and the title. */
  datatype Book = Book(idBook: string, title: string)

  datatype AuthorSimple = AuthorSimple(idAuthor: string, name: string, description: Option<string>, imageUrl: Option<string>)

  datatype Author = Author(idAuthor: string, name: string, description: Option<string>, imageUrl: Option<string>, books: seq<Book>)

  /** `Partial<AuthorType>`: what an author dialog is opened with. */
  datatype AuthorDraft = AuthorDraft(
    idAuthor: Option<string>, name: Option<string>, description: Option<string>,
    imageUrl: Option<string>, books: Option<seq<Book>>)

  datatype AuthorCreateRequest = AuthorCreateRequest(name: string, description: Option<string>, imageUrl: Option<string>, books: seq<string>)

  /** The genre record, as the genre pages use it. */
  datatype Genre = Genre(idGenre: string, name: string)

  datatype Source = Source(idSource: string, name: string, description: Option<string>)

  /** `Partial<SourceType>`. */
  datatype SourceDraft = SourceDraft(idSource: Option<string>, name: Option<string>, description: Option<string>)

  datatype SourceCreateRequest = SourceCreateRequest(name: string, description: Option<string>)

  /** `PaginationType<T>`: one page of a server-side list. */
  datatype Pagination<T> = Pagination(content: seq<T>, currentPage: int, pageSize: int, totalElements: Option<int>, totalPages: Option<int>)

  /** A list row passed as a dialog's `initial`: every field it has is set,
      and it carries no books. */
  function AuthorSimpleDraft(a: AuthorSimple): AuthorDraft {
    AuthorDraft(Some(a.idAuthor), Some(a.name), a.description, a.imageUrl, None)
  }

  /** A loaded author passed as a dialog's `initial`. */
  function AuthorDraftOf(a: Author): AuthorDraft {
    AuthorDraft(Some(a.idAuthor), Some(a.name), a.description, a.imageUrl, Some(a.books))
  }

  function SourceDraftOf(s: Source): SourceDraft {
    SourceDraft(Some(s.idSource), Some(s.name), s.description)
  }
}
