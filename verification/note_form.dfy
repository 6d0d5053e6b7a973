/**
 * The new-note form: the tag list with its add and remove operations, and the
 * condition under which the submit button is enabled.
 */
module NoteForm {
  import opened Text

  /** The form's state: the fields, the tags so far, the tag being typed, and whether a save is running. */
  datatype Form = Form(
    title: string,
    content: string,
    subjectId: string,
    tags: seq<string>,
    newTag: string,
    loading: bool)

  /** What the tag list keeps: trimmed, non-empty, pairwise distinct tags. */
  predicate TagsOk(tags: seq<string>) {
    && (forall i :: 0 <= i < |tags| ==> tags[i] != "" && IsTrimmed(tags[i]))
    && (forall i, j :: 0 <= i < j < |tags| ==> tags[i] != tags[j])
  }

  /** `addTag`: the trimmed input joins the tags if it is new and not blank, and the input is cleared. */
  function AddTag(f: Form): (r: Form)
    ensures r.title == f.title && r.content == f.content && r.subjectId == f.subjectId && r.loading == f.loading
    ensures r.tags == f.tags || r.tags == f.tags + [Trim(f.newTag)]
    ensures r.tags != f.tags <==> !AllSpace(f.newTag) && Trim(f.newTag) !in f.tags
    ensures r.tags != f.tags ==> r.newTag == ""
    ensures r.tags == f.tags ==> r == f
  {
    var t := Trim(f.newTag);
    if t != "" && t !in f.tags then f.(tags := f.tags + [t], newTag := "") else f
  }

  /** `tags.filter(tag => tag !== t)`. */
  function Without(tags: seq<string>, t: string): (r: seq<string>)
    ensures |r| <= |tags|
    ensures t !in r
    decreases |tags|
  {
    if tags == [] then []
    else if tags[0] == t then Without(tags[1..], t)
    else [tags[0]] + Without(tags[1..], t)
  }

  /** `removeTag`. */
  function RemoveTag(f: Form, t: string): (r: Form)
    ensures r.(tags := f.tags) == f
    ensures t !in r.tags && |r.tags| <= |f.tags|
  {
    f.(tags := Without(f.tags, t))
  }

  /** The submit button is enabled: no save running, a non-blank title and content, a subject chosen. */
  function CanSubmit(f: Form): (r: bool)
    ensures r <==> !f.loading && !AllSpace(f.title) && !AllSpace(f.content) && f.subjectId != ""
  {
    !f.loading && Trim(f.title) != "" && Trim(f.content) != "" && f.subjectId != ""
  }

  // ---------------------------------------------------------------------
  // Properties.

  /** Filtering distributes over concatenation, so the kept tags keep their order. */
  lemma {:induction false} WithoutAppend(a: seq<string>, b: seq<string>, t: string)
    ensures Without(a + b, t) == Without(a, t) + Without(b, t)
    decreases |a|
  {
    if a == [] {
      assert a + b == b;
    } else {
      assert (a + b)[1..] == a[1..] + b;
      WithoutAppend(a[1..], b, t);
    }
  }

  /** Exactly the entries equal to `t` go; every other tag keeps its number of occurrences. */
  lemma {:induction false} WithoutCounts(tags: seq<string>, t: string, x: string)
    requires x != t
    ensures multiset(Without(tags, t))[x] == multiset(tags)[x]
    decreases |tags|
  {
    if tags != [] {
      WithoutCounts(tags[1..], t, x);
      assert tags == [tags[0]] + tags[1..];
    }
  }

  /** Removing an absent tag changes nothing. */
  lemma {:induction false} WithoutAbsent(tags: seq<string>, t: string)
    requires t !in tags
    ensures Without(tags, t) == tags
    decreases |tags|
  {
    if tags != [] {
      WithoutAbsent(tags[1..], t);
    }
  }

  /** Every remaining tag was there before. */
  lemma {:induction false} WithoutSubset(tags: seq<string>, t: string)
    ensures forall x :: x in Without(tags, t) <==> x in tags && x != t
    decreases |tags|
  {
    if tags != [] {
      WithoutSubset(tags[1..], t);
      assert forall x :: x in tags <==> x == tags[0] || x in tags[1..];
    }
  }

  /** Adding a tag keeps the list trimmed, non-blank and free of duplicates. */
  lemma AddTagKeepsTagsOk(f: Form)
    requires TagsOk(f.tags)
    ensures TagsOk(AddTag(f).tags)
  {
    var t := Trim(f.newTag);
    if t != "" && t !in f.tags {
      var r := f.tags + [t];
      assert r[|f.tags|] == t;
      forall i | 0 <= i < |r|
        ensures r[i] != "" && IsTrimmed(r[i])
      {
        if i < |f.tags| {
          assert r[i] == f.tags[i];
        }
      }
      forall i, j | 0 <= i < j < |r|
        ensures r[i] != r[j]
      {
        assert r[i] == f.tags[i] && f.tags[i] in f.tags;
        if j < |f.tags| {
          assert r[j] == f.tags[j];
        }
      }
    }
  }

  /** Removing a tag keeps the list trimmed, non-blank and free of duplicates. */
  lemma {:induction false} WithoutKeepsTagsOk(tags: seq<string>, t: string)
    requires TagsOk(tags)
    ensures TagsOk(Without(tags, t))
    decreases |tags|
  {
    if tags != [] {
      var rest := tags[1..];
      assert TagsOk(rest) by {
        forall i, j | 0 <= i < j < |rest|
          ensures rest[i] != rest[j]
        {
          assert rest[i] == tags[i + 1] && rest[j] == tags[j + 1];
        }
      }
      WithoutKeepsTagsOk(rest, t);
      if tags[0] != t {
        WithoutSubset(rest, t);
        var w := Without(rest, t);
        assert tags[0] !in rest by {
          forall j | 0 <= j < |rest|
            ensures rest[j] != tags[0]
          {
            assert rest[j] == tags[j + 1];
          }
        }
        var r := [tags[0]] + w;
        forall i, j | 0 <= i < j < |r|
          ensures r[i] != r[j]
        {
          if i == 0 {
            assert r[j] == w[j - 1] && w[j - 1] in w;
          } else {
            assert r[i] == w[i - 1] && r[j] == w[j - 1];
          }
        }
      }
    }
  }

  /** Removing a tag just added gives back the tags from before. */
  lemma RemoveAfterAdd(f: Form)
    requires !AllSpace(f.newTag) && Trim(f.newTag) !in f.tags
    ensures RemoveTag(AddTag(f), Trim(f.newTag)).tags == f.tags
  {
    var t := Trim(f.newTag);
    WithoutAppend(f.tags, [t], t);
    WithoutAbsent(f.tags, t);
  }

  /** Adding the same tag twice is the same as adding it once. */
  lemma AddTwiceSameTag(f: Form)
    ensures AddTag(AddTag(f).(newTag := f.newTag)).tags == AddTag(f).tags
  {
    var t := Trim(f.newTag);
    if t != "" && t !in f.tags {
      assert t in f.tags + [t];
    }
  }

  /** Blanks around the title or content do not change whether the form can be submitted. */
  lemma SubmitIgnoresPadding(f: Form, a: string, b: string)
    requires AllSpace(a) && AllSpace(b)
    ensures CanSubmit(f.(title := a + Trim(f.title) + b)) == CanSubmit(f)
  {
    TrimPadded(a, Trim(f.title), b);
  }

  /** Editing the tags never changes whether the form can be submitted. */
  lemma SubmitIgnoresTags(f: Form, t: string)
    ensures CanSubmit(AddTag(f)) == CanSubmit(f)
    ensures CanSubmit(RemoveTag(f, t)) == CanSubmit(f)
  {
  }
}
