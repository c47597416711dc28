// The application shell (src/App.tsx): the list of posts, the page shown,
// the selected post, the post being edited and the editor's visibility, the
// handlers that change them, and the choice of the view to render.
module AppModel {
  import opened Types
  import opened Seqs

  /** What `renderCurrentPage` puts on screen. */
  datatype View = HomeView | PostDetailView(post: Post) | AboutView | GamesView

  /** The view for a page and a selection: a post page needs a selection, and
      every page without a view of its own (the editor page) falls back to home. */
  function RenderView(page: PageType, selected: Option<Post>): (v: View)
    ensures v.PostDetailView? <==> page == PostPage && selected.Some?
    ensures v.PostDetailView? ==> v.post == selected.value
    ensures v == AboutView <==> page == About
    ensures v == GamesView <==> page == Games
    ensures v == HomeView <==> page == Home || page == EditorPage || (page == PostPage && selected.None?)
  {
    match page
    case Home => HomeView
    case PostPage => if selected.Some? then PostDetailView(selected.value) else HomeView
    case About => AboutView
    case Games => GamesView
    case EditorPage => HomeView
  }

  /** `{ ...editingPost, ...postData }`: the edited post with the submitted fields over it. */
  function Merged(editing: Post, data: PostData): (p: Post)
    ensures p.id == editing.id && p.createdAt == editing.createdAt && p.thumbnail == editing.thumbnail
    ensures PayloadOf(p) == data
  {
    editing.(title := data.title, content := data.content, author := data.author,
             category := data.category, tags := data.tags, excerpt := data.excerpt)
  }

  /** The fields of a post that the editor writes. */
  function PayloadOf(p: Post): PostData
  {
    PostData(p.title, p.content, p.author, p.category, p.tags, p.excerpt)
  }

  /** `{ id, createdAt, ...postData }`: a new post from a submission, an id and a time. */
  function Created(id: string, now: Timestamp, data: PostData): (p: Post)
    ensures p.id == id && p.createdAt == now && p.thumbnail.None? && PayloadOf(p) == data
  {
    Post(id, data.title, data.content, data.author, now, data.excerpt, data.category, data.tags, None)
  }

  /** Saving in edit mode: every post with the edited id is replaced by the merge. */
  function ApplyEdit(posts: seq<Post>, editing: Post, data: PostData): (r: seq<Post>)
    ensures |r| == |posts|
  {
    Map(posts, (p: Post) => if p.id == editing.id then Merged(editing, data) else p)
  }

  /** Deleting: the posts whose id differs from the argument, in order. */
  function RemovePost(posts: seq<Post>, id: string): (r: seq<Post>)
    ensures |r| <= |posts|
  {
    Filter(posts, (p: Post) => p.id != id)
  }

  /** The ids of the posts, in order. */
  function Ids(posts: seq<Post>): (r: seq<string>)
    ensures |r| == |posts| && forall i :: 0 <= i < |posts| ==> r[i] == posts[i].id
  {
    Map(posts, (p: Post) => p.id)
  }

  /** No two posts share an id. */
  predicate UniqueIds(posts: seq<Post>)
  {
    forall i, j :: 0 <= i < j < |posts| ==> posts[i].id != posts[j].id
  }

  /** An edit keeps the length and order: each post with the edited id becomes
      the merge, keeping its id, creation time and thumbnail, and every other
      post is untouched. */
  lemma ApplyEditReplacesById(posts: seq<Post>, editing: Post, data: PostData)
    ensures forall i :: 0 <= i < |posts| && posts[i].id != editing.id ==> ApplyEdit(posts, editing, data)[i] == posts[i]
    ensures forall i :: 0 <= i < |posts| && posts[i].id == editing.id ==>
      var q := ApplyEdit(posts, editing, data)[i];
      q.id == posts[i].id && q.createdAt == editing.createdAt && q.thumbnail == editing.thumbnail && PayloadOf(q) == data
  {
  }

  /** An edit leaves the list of ids as it was, so unique ids stay unique. */
  lemma ApplyEditKeepsIds(posts: seq<Post>, editing: Post, data: PostData)
    ensures Ids(ApplyEdit(posts, editing, data)) == Ids(posts)
    ensures UniqueIds(posts) ==> UniqueIds(ApplyEdit(posts, editing, data))
  {
    var r := ApplyEdit(posts, editing, data);
    assert forall i :: 0 <= i < |posts| ==> r[i].id == posts[i].id;
  }

  /** Saving the same edit twice changes nothing the second time. */
  lemma ApplyEditIdempotent(posts: seq<Post>, editing: Post, data: PostData)
    ensures ApplyEdit(ApplyEdit(posts, editing, data), editing, data) == ApplyEdit(posts, editing, data)
  {
  }

  /** Creating with an id no post has yet keeps the ids unique, and the old posts follow the new one. */
  lemma CreateKeepsUniqueIds(posts: seq<Post>, id: string, now: Timestamp, data: PostData)
    requires UniqueIds(posts) && id !in Ids(posts)
    ensures UniqueIds([Created(id, now, data)] + posts)
    ensures ([Created(id, now, data)] + posts)[1..] == posts
  {
    var r := [Created(id, now, data)] + posts;
    forall j | 0 < j < |r| ensures r[0].id != r[j].id {
      assert Ids(posts)[j - 1] == posts[j - 1].id;
    }
  }

  /** Deleting keeps the order of the rest (a subsequence), drops a post
      exactly when it has the id, keeps every copy of the others, and leaves
      no post with that id. */
  lemma RemovePostSelects(posts: seq<Post>, id: string)
    ensures IsSubsequence(RemovePost(posts, id), posts)
    ensures forall p :: p in RemovePost(posts, id) <==> p in posts && p.id != id
    ensures forall p | p in posts && p.id != id :: multiset(RemovePost(posts, id))[p] == multiset(posts)[p]
    ensures id !in Ids(RemovePost(posts, id))
  {
    FilterSelects(posts, (p: Post) => p.id != id);
    FilterMembers(posts, (p: Post) => p.id != id);
    var r := RemovePost(posts, id);
    forall i | 0 <= i < |r| ensures Ids(r)[i] != id {
      assert r[i] in r;
    }
  }

  /** Deleting an id no post has changes nothing; deleting twice is deleting once. */
  lemma RemovePostAbsentAndTwice(posts: seq<Post>, id: string)
    ensures id !in Ids(posts) ==> RemovePost(posts, id) == posts
    ensures RemovePost(RemovePost(posts, id), id) == RemovePost(posts, id)
  {
    if id !in Ids(posts) {
      forall i | 0 <= i < |posts| ensures posts[i].id != id {
        assert Ids(posts)[i] == posts[i].id;
      }
      FilterKeepsAll(posts, (p: Post) => p.id != id);
    }
    RemovePostSelects(posts, id);
    var r := RemovePost(posts, id);
    forall i | 0 <= i < |r| ensures r[i].id != id {
      assert r[i] in r;
    }
    FilterKeepsAll(r, (p: Post) => p.id != id);
  }

  /** Deleting keeps unique ids unique. */
  lemma {:induction false} RemovePostKeepsUniqueIds(posts: seq<Post>, id: string)
    requires UniqueIds(posts)
    ensures UniqueIds(RemovePost(posts, id))
  {
    if posts != [] {
      var rest := posts[1..];
      assert UniqueIds(rest);
      RemovePostKeepsUniqueIds(rest, id);
      var tail := RemovePost(rest, id);
      FilterMembers(rest, (p: Post) => p.id != id);
      if posts[0].id != id {
        var r := RemovePost(posts, id);
        assert r == [posts[0]] + tail;
        forall j | 0 < j < |r| ensures r[0].id != r[j].id {
          assert r[j] == tail[j - 1] && tail[j - 1] in rest;
          var k :| 0 <= k < |rest| && rest[k] == tail[j - 1];
          assert posts[k + 1] == rest[k];
        }
      }
    }
  }

  /** The application's state. */
  class App {
    var posts: seq<Post>
    var currentPage: PageType
    var selectedPost: Option<Post>
    var editingPost: Option<Post>
    var showEditor: bool

    /** A post is only ever being edited while the editor is open. */
    predicate Valid()
      reads this
    {
      editingPost.Some? ==> showEditor
    }

    /** What is on screen under the navigation bar: a post's page only ever
        shows the selected post. */
    function View(): (v: View)
      reads this
      ensures v.PostDetailView? ==> selectedPost == Some(v.post)
    {
      RenderView(currentPage, selectedPost)
    }

    /** First render: the seed posts, the home page, nothing selected, no editor. */
    constructor (seed: seq<Post>)
      ensures Valid()
      ensures posts == seed && currentPage == Home && selectedPost.None?
      ensures editingPost.None? && !showEditor
    {
      posts, currentPage, selectedPost, editingPost, showEditor := seed, Home, None, None, false;
    }

    /** A navigation link: the page changes and the selection is cleared,
        whatever the page, so a link to the post page shows the home page. */
    method Navigate(page: PageType)
      requires Valid()
      modifies this
      ensures Valid()
      ensures currentPage == page && selectedPost.None?
      ensures page != About && page != Games ==> View() == HomeView
      ensures posts == old(posts) && editingPost == old(editingPost) && showEditor == old(showEditor)
    {
      currentPage := page;
      selectedPost := None;
    }

    /** Opening a post from the feed. */
    method PostClick(post: Post)
      requires Valid()
      modifies this
      ensures Valid()
      ensures selectedPost == Some(post) && currentPage == PostPage
      ensures View() == PostDetailView(post)
      ensures posts == old(posts) && editingPost == old(editingPost) && showEditor == old(showEditor)
    {
      selectedPost := Some(post);
      currentPage := PostPage;
    }

    /** "Write": the editor opens on an empty form. */
    method NewPost()
      requires Valid()
      modifies this
      ensures Valid()
      ensures editingPost.None? && showEditor
      ensures posts == old(posts) && currentPage == old(currentPage) && selectedPost == old(selectedPost)
    {
      editingPost := None;
      showEditor := true;
    }

    /** "Edit": the editor opens on the given post. */
    method EditPost(post: Post)
      requires Valid()
      modifies this
      ensures Valid()
      ensures editingPost == Some(post) && showEditor
      ensures posts == old(posts) && currentPage == old(currentPage) && selectedPost == old(selectedPost)
    {
      editingPost := Some(post);
      showEditor := true;
    }

    /** The editor's save: an edit replaces the posts with the edited id, a new
        post (with the id and time read from the clock) goes first; then the
        editor closes and the home page shows. The selection is kept. */
    method SavePost(data: PostData, freshId: string, now: Timestamp)
      requires Valid()
      modifies this
      ensures Valid()
      ensures old(editingPost).Some? ==> posts == ApplyEdit(old(posts), old(editingPost).value, data)
      ensures old(editingPost).None? ==> posts == [Created(freshId, now, data)] + old(posts)
      ensures !showEditor && editingPost.None? && currentPage == Home && View() == HomeView
      ensures selectedPost == old(selectedPost)
    {
      if editingPost.Some? {
        posts := ApplyEdit(posts, editingPost.value, data);
      } else {
        posts := [Created(freshId, now, data)] + posts;
      }
      showEditor := false;
      editingPost := None;
      currentPage := Home;
    }

    /** Deleting after the confirmation dialog: nothing happens when it is
        declined; otherwise the posts with the id go, and if the selected post
        has that id the home page shows and the selection is cleared. */
    method DeletePost(id: string, confirmed: bool)
      requires Valid()
      modifies this
      ensures Valid()
      ensures !confirmed ==> posts == old(posts) && currentPage == old(currentPage) && selectedPost == old(selectedPost)
      ensures confirmed ==> posts == RemovePost(old(posts), id)
      ensures confirmed && old(selectedPost).Some? && old(selectedPost).value.id == id ==>
        currentPage == Home && selectedPost.None? && View() == HomeView
      ensures confirmed && !(old(selectedPost).Some? && old(selectedPost).value.id == id) ==>
        currentPage == old(currentPage) && selectedPost == old(selectedPost)
      ensures editingPost == old(editingPost) && showEditor == old(showEditor)
    {
      if confirmed {
        posts := RemovePost(posts, id);
        if selectedPost.Some? && selectedPost.value.id == id {
          currentPage := Home;
          selectedPost := None;
        }
      }
    }

    /** The editor's cancel: it closes and forgets the edited post. */
    method Cancel()
      requires Valid()
      modifies this
      ensures Valid()
      ensures !showEditor && editingPost.None?
      ensures posts == old(posts) && currentPage == old(currentPage) && selectedPost == old(selectedPost)
    {
      showEditor := false;
      editingPost := None;
    }

    /** The post page's back button. */
    method BackToHome()
      requires Valid()
      modifies this
      ensures Valid()
      ensures currentPage == Home && selectedPost.None? && View() == HomeView
      ensures posts == old(posts) && editingPost == old(editingPost) && showEditor == old(showEditor)
    {
      currentPage := Home;
      selectedPost := None;
    }
  }
}
