/**
 * The administrator's blog editor: a post form of title, image URL and
 * body, saved as it stands, and the list preview of each post.
 */
module AdminBlog {
  import opened Wrappers
  import opened Text
  import opened Notices

  datatype PostForm = PostForm(title: string, imageUrl: string, body: string)

  datatype PostField = Title | ImageUrl | Body

  const EMPTY_FORM := PostForm("", "", "")

  /** A row of the posts table; image URL and body may be null. */
  datatype StoredPost = StoredPost(id: string, title: string, imageUrl: Option<string>, body: Option<string>)

  /** A write to the posts table: the form itself is the payload. */
  datatype PostWrite = UpdatePost(id: string, form: PostForm) | InsertPost(form: PostForm) | DeletePost(id: string)

  /** Saving is refused when the title or the body is blank. */
  function SaveError(form: PostForm): (e: Option<string>)
    ensures e.Some? <==> IsBlank(form.title) || IsBlank(form.body)
    ensures e.Some? ==> e.value == "Please fill all required fields."
  {
    if IsBlank(form.title) || IsBlank(form.body) then Some("Please fill all required fields.") else None
  }

  /** The row a save leaves behind: the form's fields under the row's id. */
  function Saved(id: string, form: PostForm): (p: StoredPost)
    ensures p.id == id && p.title == form.title && p.imageUrl == Some(form.imageUrl) && p.body == Some(form.body)
  {
    StoredPost(id, form.title, Some(form.imageUrl), Some(form.body))
  }

  /** `startEdit`'s form: the title as stored, a null image URL or body as `''`. */
  function EditForm(post: StoredPost): (form: PostForm)
    ensures form.title == post.title
    ensures form.imageUrl == post.imageUrl.GetOr("") && form.body == post.body.GetOr("")
  {
    PostForm(post.title, post.imageUrl.GetOr(""), post.body.GetOr(""))
  }

  /** Editing a saved post gives back the form it was saved from. */
  lemma EditAfterSave(id: string, form: PostForm)
    ensures EditForm(Saved(id, form)) == form
  {
  }

  /** A post saved without a body reads back for editing with an empty one. */
  lemma EditNullBody(id: string, title: string)
    ensures EditForm(StoredPost(id, title, None, None)) == PostForm(title, "", "")
  {
  }

  /** The list preview: at most the first 200 characters of the body, always followed by "...". */
  function Preview(body: string): (p: string)
    ensures |body| <= 200 ==> p == body + "..."
    ensures |body| > 200 ==> |p| == 203 && p[..200] == body[..200]
    ensures p[|p| - 3..] == "..."
  {
    (if |body| <= 200 then body else body[..200]) + "..."
  }

  class AdminBlogPage {
    var posts: seq<StoredPost>
    var loading: bool
    var showForm: bool
    var editingPost: Option<StoredPost>
    var notification: Option<Notice>
    var form: PostForm
    /** The writes made to the posts table, oldest first. */
    var writes: seq<PostWrite>

    constructor ()
      ensures posts == [] && loading && !showForm && editingPost.None?
      ensures notification.None? && form == EMPTY_FORM && writes == []
    {
      posts := [];
      loading := true;
      showForm := false;
      editingPost := None;
      notification := None;
      form := EMPTY_FORM;
      writes := [];
    }

    /** `loadPosts` with the result of the select: the rows, or None on an error. */
    method LoadPosts(fetched: Option<seq<StoredPost>>)
      modifies this`posts, this`loading, this`notification
      ensures !loading
      ensures fetched.Some? ==> posts == fetched.value && notification == old(notification)
      ensures fetched.None? ==> posts == old(posts)
      ensures fetched.None? ==> notification == Some(Notice(ErrorNotice, "Error", "Failed to load blog posts."))
    {
      loading := true;
      if fetched.Some? {
        posts := fetched.value;
      } else {
        notification := Some(Notice(ErrorNotice, "Error", "Failed to load blog posts."));
      }
      loading := false;
    }

    method ResetForm()
      modifies this`form, this`editingPost, this`showForm
      ensures form == EMPTY_FORM && editingPost.None? && !showForm
    {
      form := EMPTY_FORM;
      editingPost := None;
      showForm := false;
    }

    method StartEdit(post: StoredPost)
      modifies this`form, this`editingPost, this`showForm
      ensures editingPost == Some(post) && form == EditForm(post) && showForm
    {
      editingPost := Some(post);
      form := EditForm(post);
      showForm := true;
    }

    /** The add/cancel button flips the form's visibility and nothing else. */
    method ToggleForm()
      modifies this`showForm
      ensures showForm == !old(showForm)
    {
      showForm := !showForm;
    }

    /** Typing into one of the three inputs changes that field only. */
    method SetField(field: PostField, value: string)
      modifies this`form
      ensures field.Title? ==> form == old(form).(title := value)
      ensures field.ImageUrl? ==> form == old(form).(imageUrl := value)
      ensures field.Body? ==> form == old(form).(body := value)
    {
      match field {
        case Title => form := form.(title := value);
        case ImageUrl => form := form.(imageUrl := value);
        case Body => form := form.(body := value);
      }
    }

    /**
     * `handleSubmit`, with whether the write fails: a refused form writes
     * nothing; otherwise the edited post is updated by its id, or the form
     * inserted as a new post, and a success resets the form.
     */
    method HandleSubmit(failed: bool)
      modifies this`form, this`editingPost, this`showForm, this`notification, this`writes
      ensures SaveError(old(form)).Some? ==>
        && notification == Some(Notice(ErrorNotice, "Error", "Please fill all required fields."))
        && writes == old(writes) && form == old(form) && editingPost == old(editingPost) && showForm == old(showForm)
      ensures SaveError(old(form)).None? && old(editingPost).Some? ==>
        writes == old(writes) + [UpdatePost(old(editingPost).value.id, old(form))]
      ensures SaveError(old(form)).None? && old(editingPost).None? ==>
        writes == old(writes) + [InsertPost(old(form))]
      ensures SaveError(old(form)).None? && !failed ==>
        && notification == Some(Notice(SuccessNotice, "Success",
             if old(editingPost).Some? then "Post updated successfully." else "Post added successfully."))
        && form == EMPTY_FORM && editingPost.None? && !showForm
      ensures SaveError(old(form)).None? && failed ==>
        && notification == Some(Notice(ErrorNotice, "Error", "Failed to save post."))
        && form == old(form) && editingPost == old(editingPost) && showForm == old(showForm)
    {
      if SaveError(form).Some? {
        notification := Some(Notice(ErrorNotice, "Error", "Please fill all required fields."));
        return;
      }
      if editingPost.Some? {
        writes := writes + [UpdatePost(editingPost.value.id, form)];
      } else {
        writes := writes + [InsertPost(form)];
      }
      if failed {
        notification := Some(Notice(ErrorNotice, "Error", "Failed to save post."));
        return;
      }
      notification := Some(Notice(SuccessNotice, "Success",
        if editingPost.Some? then "Post updated successfully." else "Post added successfully."));
      ResetForm();
    }

    /** `handleDelete`: nothing happens unless the administrator confirms. */
    method HandleDelete(id: string, confirmed: bool, failed: bool)
      modifies this`notification, this`writes
      ensures !confirmed ==> writes == old(writes) && notification == old(notification)
      ensures confirmed ==> writes == old(writes) + [DeletePost(id)]
      ensures confirmed && !failed ==> notification == Some(Notice(SuccessNotice, "Success", "Post deleted successfully."))
      ensures confirmed && failed ==> notification == Some(Notice(ErrorNotice, "Error", "Failed to delete post."))
    {
      if !confirmed {
        return;
      }
      writes := writes + [DeletePost(id)];
      if failed {
        notification := Some(Notice(ErrorNotice, "Error", "Failed to delete post."));
      } else {
        notification := Some(Notice(SuccessNotice, "Success", "Post deleted successfully."));
      }
    }
  }
}
