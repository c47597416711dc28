// Data model of the blog client (src/types/index.ts) and the payload the
// editor hands to the application on save.
module Types {

  datatype Option<T> = None | Some(value: T)

  /** Milliseconds since the epoch; the client reads it from the browser clock. */
  type Timestamp = nat

  /** One blog entry. `thumbnail` is optional and never written by the editor. */
  datatype Post = Post(
    id: string,
    title: string,
    content: string,
    author: string,
    createdAt: Timestamp,
    excerpt: string,
    category: string,
    tags: seq<string>,
    thumbnail: Option<string>)

  /** What the editor submits: a post without `id` and `createdAt`. */
  datatype PostData = PostData(
    title: string,
    content: string,
    author: string,
    category: string,
    tags: seq<string>,
    excerpt: string)

  /** The pages the application can be on; `EditorPage` exists in the type but no handler shows it. */
  datatype PageType = Home | PostPage | About | Games | EditorPage
}
