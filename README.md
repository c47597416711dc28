# A verified model of the cosmic blog client

The blog client is a single-page React application. All of its state lives in
memory: the list of posts, the page on screen, the selected post, the post
being edited and whether the editor modal is open. This project models the
three parts of it that hold logic rather than markup, and proves what they
promise.

- **The application shell** (`src/App.tsx`) is modelled in `app.dfy`, module
  `AppModel`. It becomes a class `App` with the five state fields and one
  method per handler: navigate, click a post, new post, edit post, save,
  delete (after the confirmation dialog), cancel and back to home.
  - Its invariant `Valid` says that a post is only being edited while the
    editor is open.
  - The list rebuilds that the handlers perform are pure functions:
    `ApplyEdit` (a map), `Created` (prepended) and `RemovePost` (a filter).
    Lemmas about them cover order, length, what changes and what does not,
    idempotence and unique ids.
  - `RenderView` is the view selection of `renderCurrentPage`.
- **The home feed** (`src/components/HomePage.tsx`) is modelled in
  `feed.dfy`, module `Feed`. The derivations are pure functions:
  - the category buttons;
  - the combined search-and-category filter;
  - the page count and the five-post page slice;
  - the clamped previous and next steps;
  - the reading time;
  - the empty-feed notice;
  - the sidebar counts.

  The component's own state (search term, category, page number) is the
  class `FeedState`, whose setters leave the page number alone, as the
  component does.
- **The editor** (`src/components/BlogEditor.tsx`) is split in two:
  - `editor.dfy`, module `Editor`, holds the pure submission logic:
    validation after trim, tag parsing, the excerpt, and how a post's fields
    read back through the form.
  - `editor_form.dfy`, module `EditorModal`, is the component itself as a
    class `EditorForm`. It has the five text fields, the `useState`
    initialisers as its constructor, the prefill effect, keystrokes and the
    submit handler.
- **Shared pieces.** `types.dfy` holds the data model of
  `src/types/index.ts`. `text.dfy` holds the JavaScript string primitives the
  client uses (`trim`, `toLowerCase`, `includes`, `split`, `join`), over
  ASCII. `seqs.dfy` holds the list primitives (`filter`, `map`, and
  `Array.from(new Set(...))` as `Distinct`).

The model follows the code where the two differ from a plain description of the
application:

- Navigating always clears the selected post, even when the target is the post
  page.
- The excerpt's `...` marker depends on the length of the UNTRIMMED content,
  while the kept text is the trimmed content.
- Saving never clears the selected post.
- Neither a new search term nor a new category resets the feed's page number.
  So a page can be empty while posts match. `NoMatchesPastLastPage` shows one
  such case: with six posts the feed is on page 2, and a new term matches five
  of them. Page 2 is then empty and the feed says that nothing matches. The
  five matches sit on page 1, and the page buttons are gone because one page
  is left.
- The category list is `"all"` followed by the distinct post categories. A post
  whose category is literally `"all"` therefore gives a second `"all"` button.
- An edited post with an empty category opens with `general` in the field,
  because the initialiser uses `||`. The prefill effect then overwrites the
  field with the empty category.

## Model

| member | source | states |
|---|---|---|
| AppModel.RenderView | src/App.tsx:104-145 | the detail view shows exactly for the post page with a selection, and it shows that post; about and games show their pages; home shows for the home page, the editor page and a post page with no selection |
| AppModel.Merged | src/App.tsx:68 | the spread of the submission over the edited post keeps its id, creation time and thumbnail and carries exactly the submitted fields |
| AppModel.Created | src/App.tsx:72-76 | a new post carries the supplied id and time, no thumbnail and exactly the submitted fields |
| AppModel.ApplyEditReplacesById | src/App.tsx:66-70 | an edit keeps the list's length and order; each post with the edited id becomes the merge, which keeps the post's id and the edited post's creation time and thumbnail; every other post is unchanged |
| AppModel.ApplyEditKeepsIds | src/App.tsx:66-70 | an edit leaves the sequence of ids unchanged, so unique ids stay unique |
| AppModel.ApplyEditIdempotent | src/App.tsx:66-70 | saving the same edit twice gives the same list as saving it once |
| AppModel.CreateKeepsUniqueIds | src/App.tsx:72-77 | prepending a post whose id is new keeps ids unique, and the old list follows it unchanged |
| AppModel.ApplyEdit | src/App.tsx:66-70 | an edit keeps the list's length |
| AppModel.RemovePost | src/App.tsx:86 | deleting never lengthens the list |
| AppModel.RemovePostSelects | src/App.tsx:86 | deleting keeps the rest in order (a subsequence), keeps a post exactly when its id differs, keeps every copy of such a post, and leaves no post with the id |
| AppModel.RemovePostAbsentAndTwice | src/App.tsx:86 | deleting an id that no post has changes nothing; deleting twice is the same as deleting once |
| AppModel.RemovePostKeepsUniqueIds | src/App.tsx:86 | deleting keeps unique ids unique |
| AppModel.App.View | src/App.tsx:104-145 | the screen is RenderView of the page and selection; a post's detail view only ever shows the selected post |
| AppModel.App.constructor | src/App.tsx:12-42 | the first state is the seed posts, the home page, no selection, no edited post and the editor closed |
| AppModel.App.Navigate | src/App.tsx:44-47 | the page becomes the requested one and the selection is cleared whatever the page, so every page but about and games shows the home view, the post page included; posts and editor state are untouched; the invariant holds |
| AppModel.App.PostClick | src/App.tsx:49-52 | the selection becomes the clicked post and the page the post page, so that post's detail view shows; posts and editor state are untouched |
| AppModel.App.NewPost | src/App.tsx:54-57 | the editor opens with no edited post; posts, page and selection are untouched |
| AppModel.App.EditPost | src/App.tsx:59-62 | the editor opens on the given post; posts, page and selection are untouched |
| AppModel.App.SavePost | src/App.tsx:64-82 | in edit mode the list becomes ApplyEdit of the old list; otherwise the created post goes first and the old list follows; then the editor is closed, nothing is being edited, the page is home, the home view shows and the selection is kept |
| AppModel.App.DeletePost | src/App.tsx:84-92 | a declined confirmation changes nothing; a confirmed one removes the posts with the id, and it sends the page home, clears the selection and shows the home view exactly when the selected post has that id; editor state is untouched |
| AppModel.App.Cancel | src/App.tsx:94-97 | the editor closes and nothing is being edited; posts, page and selection are untouched |
| AppModel.App.BackToHome | src/App.tsx:99-102 | the page is home, the selection is cleared and the home view shows; posts and editor state are untouched |
| Feed.FilterPostsSelects | src/components/HomePage.tsx:22-27 | the filtered feed is a subsequence of the posts; a post is in it exactly when it matches the search (title or content, ignoring ASCII case) and the category; every copy of a kept post is kept |
| Feed.FilterOrderIrrelevant | src/components/HomePage.tsx:22-27 | applying the search filter and the category filter in either order gives the combined filter |
| Feed.MatchesSearch | src/components/HomePage.tsx:23-24 | the empty term matches every post; a matching term is no longer than the title or the content |
| Feed.MatchesCategory | src/components/HomePage.tsx:25 | "all" lets every post through; any other category lets through exactly the posts of that category |
| Feed.FilterPosts | src/components/HomePage.tsx:22-27 | the filtered feed is never longer than the posts |
| Feed.NoCriteriaKeepsAll | src/components/HomePage.tsx:22-27 | with an empty term and the category "all" the feed is every post, in order |
| Feed.PostCategories | src/components/HomePage.tsx:19 | one category per post, position by position |
| Feed.Categories | src/components/HomePage.tsx:19 | the list starts with "all" |
| Feed.CategoriesListed | src/components/HomePage.tsx:19 | every post's category appears after "all"; every entry after "all" is some post's category; those entries are pairwise distinct and ordered by first appearance in the posts |
| Feed.ButtonHasPost | src/components/HomePage.tsx:19 | each category after "all" belongs to some post |
| Feed.SidebarCategories | src/components/HomePage.tsx:240 | the sidebar list never contains "all" |
| Feed.CategoryCount | src/components/HomePage.tsx:241 | a category's count is at most the number of posts |
| Feed.CarriedCategoryCounted | src/components/HomePage.tsx:241 | the category of any post has a count of at least 1 |
| Feed.SidebarCountsPositive | src/components/HomePage.tsx:240-241 | every category the sidebar lists has a count of at least 1 |
| Feed.TotalPages | src/components/HomePage.tsx:30 | the page count is the ceiling of n/5: enough pages for n posts, and one fewer page would not be enough |
| Feed.Page | src/components/HomePage.tsx:31-32 | a page has at most 5 posts and is empty once its start is past the end; otherwise it has 5 posts, or what remains; its j-th post is the filtered post at (page-1)*5+j |
| Feed.PagesUpTo | src/components/HomePage.tsx:30-32 | pages 1..k hold at most 5k posts together |
| Feed.PagesUpToIsPrefix | src/components/HomePage.tsx:30-32 | pages 1..k together are exactly the first min(5k, n) filtered posts, so pages neither overlap nor skip |
| Feed.PagesCoverFeed | src/components/HomePage.tsx:30-32 | pages 1..totalPages together are exactly the filtered feed |
| Feed.TwelvePostsExample | src/components/HomePage.tsx:30-32 | 12 posts give 3 pages of 5, 5 and 2 posts, the last being the final two; page 4 is empty |
| Feed.PreviousPage | src/components/HomePage.tsx:164 | previous never goes below 1: it steps back one page from above page 1, and it stays at 1 otherwise |
| Feed.NextPage | src/components/HomePage.tsx:188 | next never goes past the page count: it steps on one page below the last page, and it gives the last page otherwise |
| Feed.StepsStayInRange | src/components/HomePage.tsx:161-189 | from a page in 1..totalPages both buttons stay in range, and each step undoes the other when it moved |
| Feed.WordCount | src/components/HomePage.tsx:44 | the word count is the number of spaces plus one |
| Feed.ReadingTime | src/components/HomePage.tsx:42-46 | the reading time is the ceiling of (spaces + 1) / 200, so at least one minute |
| Feed.ReadingTimeOfShortText | src/components/HomePage.tsx:42-46 | text with fewer than 200 spaces, the empty text included, reads in one minute |
| Feed.EmptyNotice | src/components/HomePage.tsx:96-103 | a notice shows exactly when the page is empty; it is "no matches" exactly when a term or a category other than "all" is active, and "no posts yet" otherwise |
| Feed.NoPostsYetOnFirstPage | src/components/HomePage.tsx:96-103 | on page 1, "no posts yet" means that there are no posts |
| Feed.NoMatchesPastLastPage | src/components/HomePage.tsx:96-103 | with six or more posts there is a page 2; if a new term then matches five posts, there is one page, page 1 holds five posts, and page 2 is empty with the "no matches" notice |
| Feed.FeedState.constructor | src/components/HomePage.tsx:13-16 | the feed starts with an empty search, the category "all" and page 1 |
| Feed.FeedState.SetSearchTerm | src/components/HomePage.tsx:72 | typing sets the term and leaves the category and page number as they were |
| Feed.FeedState.SelectCategory | src/components/HomePage.tsx:81 | a category button sets the category and leaves the term and page number as they were |
| Feed.FeedState.Shown | src/components/HomePage.tsx:31-32 | the current page shows at most five posts, each a post that matches the current search and category |
| Feed.FeedState.GoToPage | src/components/HomePage.tsx:175 | a page button sets that page, which is never empty; term and category are untouched |
| Feed.FeedState.Previous | src/components/HomePage.tsx:164 | the page number becomes PreviousPage of the old one; term and category are untouched |
| Feed.FeedState.Next | src/components/HomePage.tsx:188 | the page number becomes NextPage of the old one and the page count, and that page is never empty; term and category are untouched |
| Editor.Take | src/components/BlogEditor.tsx:40 | substring(0, n) is the prefix of length min(n, length) |
| Editor.TrimAll | src/components/BlogEditor.tsx:32 | each piece trimmed, position by position |
| Editor.TrimmedPiecesAreClean | src/components/BlogEditor.tsx:32 | trimmed comma-free pieces are trimmed and comma-free |
| Editor.TrimDropsNoOtherChar | src/components/BlogEditor.tsx:32 | a character in the trim was in the text |
| Editor.ParseTags | src/components/BlogEditor.tsx:32 | every parsed tag is non-empty, trimmed and free of commas |
| Editor.ParseTagsOfPieces | src/components/BlogEditor.tsx:32 | parsing comma-joined comma-free pieces trims each piece and drops the empty ones, in order |
| Editor.BlankTagDropped | src/components/BlogEditor.tsx:32 | for any clean tags a, b, c the text "a, b, , c" parses to [a, b, c] |
| Editor.ParseTagsExample | src/components/BlogEditor.tsx:32 | "a, b, , c" parses to ["a", "b", "c"] |
| Editor.TagsRoundTrip | src/components/BlogEditor.tsx:24-32 | clean tags joined with ", " as the form shows them parse back to the same list |
| Editor.Excerpt | src/components/BlogEditor.tsx:40 | the excerpt is at most 203 characters; content of at most 200 characters gives its trim; longer content gives the first 200 characters of the trim followed by "..." |
| Editor.ExcerptAtLimit | src/components/BlogEditor.tsx:40 | trimmed content of exactly 200 characters is its own excerpt, with no marker |
| Editor.ExcerptJustOverLimit | src/components/BlogEditor.tsx:40 | trimmed content of 201 characters gives its first 200 characters and "..." |
| Editor.ExcerptOfShortTrim | src/components/BlogEditor.tsx:40 | content over 200 characters whose trim is at most 200 gives the whole trim and "..." |
| Editor.ExcerptMarkerCountsSurroundingSpace | src/components/BlogEditor.tsx:40 | a 200-character body after one leading space gets the marker, although no character of it is cut |
| Editor.Submit | src/components/BlogEditor.tsx:28-41 | nothing is saved exactly when the title, content, author or category is blank; a saved payload has non-empty trimmed text fields, clean tags and an excerpt of at most 203 characters |
| Editor.SubmitKeepsTrimmedText | src/components/BlogEditor.tsx:34-40 | each saved text field is its raw field with the white space at both ends cut off and nothing else; the tags and excerpt are parsed from the raw fields |
| Editor.SubmitOfClean | src/components/BlogEditor.tsx:30-40 | fields that are already non-blank and trimmed are saved as they are |
| Editor.PrefilledFields | src/components/BlogEditor.tsx:18-26 | clean tags that the prefill joins with ", " parse back to the same list |
| Editor.ResubmitUnchanged | src/components/BlogEditor.tsx:18-41 | a clean post opened in the editor and submitted unchanged is saved with the same fields and tags |
| EditorModal.EditorForm.constructor | src/components/BlogEditor.tsx:12-16 | a new post starts with empty fields and the category "general"; an edited one starts with its fields, its tags joined by ", ", and "general" in place of an empty category |
| EditorModal.EditorForm.Prefill | src/components/BlogEditor.tsx:18-26 | with a post, every field is taken from it, the tags joined by ", "; without one, nothing changes |
| EditorModal.EditorForm.Input | src/components/BlogEditor.tsx:65-118 | typing in one input replaces that field and leaves the other four |
| EditorModal.EditorForm.HandleSubmit | src/components/BlogEditor.tsx:28-42 | the handler saves exactly what Submit gives for the current fields |
| Text.Trim | src/components/BlogEditor.tsx:30 | the trim has no white space at either end |
| Text.TrimBlank | src/components/BlogEditor.tsx:30 | the trim is empty exactly when the text is blank |
| Text.TrimIsSlice | src/components/BlogEditor.tsx:35-38 | the trim is a middle slice of the text with only white space around it |
| Text.TrimOfTrimmed | src/components/BlogEditor.tsx:35-38 | trimming text that has no surrounding white space changes nothing |
| Text.TrimSkipsLeadingSpace | src/components/BlogEditor.tsx:32 | a leading white-space character does not change the trim |
| Text.Contains | src/components/HomePage.tsx:23-24 | includes holds exactly when the term occurs at some position |
| Text.ToLower | src/components/HomePage.tsx:23-24 | lower-casing maps each character, upper-case ASCII letters to their lower-case ones |
| Text.Join | src/components/BlogEditor.tsx:16 | every character of a join comes from a piece or from the glue |
| Text.Split | src/components/BlogEditor.tsx:32 | splitting gives one piece more than there are separators |
| Text.SplitPieces | src/components/BlogEditor.tsx:32 | no piece contains the separator, and joining the pieces with it restores the text |
| Text.SplitJoin | src/components/BlogEditor.tsx:32 | splitting separator-free pieces joined by the separator gives the pieces back |
| Seqs.FilterSelects | src/components/HomePage.tsx:22 | a filter's result is a subsequence of its input and keeps every copy of each kept element and none of the others |
| Seqs.FilterMembers | src/components/HomePage.tsx:22 | an element is in the result exactly when it is in the input and is kept |
| Seqs.FilterFilter | src/components/HomePage.tsx:22-27 | two filters in a row are one filter by the conjunction |
| Seqs.Filter | src/components/HomePage.tsx:22 | a filter never lengthens the list |
| Seqs.Map | src/components/HomePage.tsx:19 | a map keeps the length and applies the function position by position |
| Seqs.Distinct | src/components/HomePage.tsx:19 | the distinct elements: the same members as the input, each once, in order of first appearance |

## Left out

- The seed post's text (`src/App.tsx:13-36`) is left out. The constructor takes the initial list as a parameter instead.
- The browser's clock and dialog are inputs. `Date.now()`, `new Date()` and `confirm()` become the parameters `freshId`, `now` and `confirmed` of `SavePost` and `DeletePost`. A timestamp is a natural number, and date formatting (`toLocaleDateString`) is left out.
- AppModel.App.DeletePost: the handler is memoised with an empty dependency list (`src/App.tsx:92`), so at run time it reads the `selectedPost` of the first render, which is always null. The model follows the conditional as written, using the current selection. It does not model the stale closure, because that belongs to React's memoisation and not to the handler's logic. The visible effect differs: a delete can only start on the post page, where the selection is the deleted post. So the model always goes home, while the running app keeps showing the deleted post.
- React's scheduling (batched state updates, effect timing, memoisation) is not modelled: each handler is one atomic transition. The editor's mount and its prefill effect are two separate steps, `EditorForm.constructor` and `EditorForm.Prefill`.
- Text.Trim, Text.ToLower: these work on ASCII only. `trim` removes the six ASCII white-space characters but not the Unicode spaces and line separators JavaScript also removes. `toLowerCase` maps only `A`-`Z`. Lengths count characters rather than UTF-16 code units, so the 200-character excerpt cut and the 200-character marker test are per character.
- Rendering is not modelled: the markup of every page, the post detail, about and games pages, the navigation bar (whose buttons only call the navigate and new-post handlers), and the animated background. The post detail page's reading time (`src/components/PostDetailPage.tsx:21-25`) is the same formula as the feed's and is modelled once, as `Feed.ReadingTime`.
- The sidebar's "recent posts" (`posts.slice(0, 3)`) and the capitalisation of category labels are presentation. They are not modelled.
- Feed.FeedState.GoToPage: its precondition is the range of page buttons rendered, 1 to the page count. The buttons themselves are not modelled.
