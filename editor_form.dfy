// The post editor modal's own state (src/components/BlogEditor.tsx): the five
// controlled form fields, their initial values, the prefill effect, keystrokes
// and the submit handler, which hands over what Editor.Submit computes.
module EditorModal {
  import opened Types
  import opened Text
  import opened Editor

  /** The editor component while it is open. */
  class EditorForm {
    var title: string
    var content: string
    var author: string
    var category: string
    var tags: string

    /** The five fields as a value. */
    function Fields(): FormFields
      reads this
    {
      FormFields(title, content, author, category, tags)
    }

    /** The useState initialisers: empty fields and the default category for
        a new post, the post's fields (an empty category falling back to the
        default) for an edited one. */
    constructor (post: Option<Post>)
      ensures post.None? ==> Fields() == FormFields("", "", "", DefaultCategory, "")
      ensures post.Some? ==>
        && title == post.value.title && content == post.value.content && author == post.value.author
        && category == (if post.value.category == "" then DefaultCategory else post.value.category)
        && tags == Join(post.value.tags, TagGlue)
    {
      if post.Some? {
        title := post.value.title;
        content := post.value.content;
        author := post.value.author;
        category := if post.value.category == "" then DefaultCategory else post.value.category;
        tags := Join(post.value.tags, TagGlue);
      } else {
        title, content, author, category, tags := "", "", "", DefaultCategory, "";
      }
    }

    /** The prefill effect: copies an edited post into every field. */
    method Prefill(post: Option<Post>)
      modifies this
      ensures post.Some? ==> Fields() == PrefilledFields(post.value)
      ensures post.None? ==> Fields() == old(Fields())
    {
      if post.Some? {
        var f := PrefilledFields(post.value);
        title, content, author, category, tags := f.title, f.content, f.author, f.category, f.tags;
      }
    }

    /** A keystroke or selection in one field replaces that field only. */
    method Input(field: Field, value: string)
      modifies this
      ensures field == Title ==> Fields() == old(Fields()).(title := value)
      ensures field == Content ==> Fields() == old(Fields()).(content := value)
      ensures field == Author ==> Fields() == old(Fields()).(author := value)
      ensures field == Category ==> Fields() == old(Fields()).(category := value)
      ensures field == Tags ==> Fields() == old(Fields()).(tags := value)
    {
      match field
      case Title => title := value;
      case Content => content := value;
      case Author => author := value;
      case Category => category := value;
      case Tags => tags := value;
    }

    /** The form's submit handler: what it hands to the save callback, if anything. */
    method HandleSubmit() returns (saved: Option<PostData>)
      ensures saved == Submit(Fields())
    {
      saved := Submit(Fields());
    }
  }
}
