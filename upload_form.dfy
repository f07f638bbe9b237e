/** The upload form (`components/UploadForm.tsx`): five text fields edited one at a
    time, and a submission that refuses any blank field and otherwise hands the
    data over and clears the form. */
module UploadForm {
  import opened Util
  import opened Text
  import opened ArticleService

  /** The `name` attributes of the form's inputs. */
  datatype Field = Title | Publisher | Author | Category | ArticleBody

  function FieldValue(d: NewArticleData, f: Field): string
  {
    match f
    case Title => d.title
    case Publisher => d.publisher
    case Author => d.author
    case Category => d.category
    case ArticleBody => d.article
  }

  /** `{ ...prev, [name]: value }`: the named field takes the value, the others keep theirs. */
  function WithField(d: NewArticleData, f: Field, v: string): (r: NewArticleData)
    ensures FieldValue(r, f) == v
    ensures forall g :: g != f ==> FieldValue(r, g) == FieldValue(d, g)
  {
    match f
    case Title => d.(title := v)
    case Publisher => d.(publisher := v)
    case Author => d.(author := v)
    case Category => d.(category := v)
    case ArticleBody => d.(article := v)
  }

  /** `Object.values(formData)`, in declaration order. */
  function Values(d: NewArticleData): seq<string>
  {
    [d.title, d.publisher, d.author, d.category, d.article]
  }

  /** `Object.values(formData).some(value => value.trim() === '')`. */
  predicate HasBlankField(d: NewArticleData)
  {
    exists i :: 0 <= i < |Values(d)| && Trim(Values(d)[i]) == ""
  }

  /** The fields in declaration order. */
  const Fields: seq<Field> := [Title, Publisher, Author, Category, ArticleBody]

  /** A field is blank exactly when it is empty or whitespace only, and the form has
      a blank field exactly when one of the five fields is such. */
  lemma BlankFieldMeansWhitespace(d: NewArticleData)
    ensures HasBlankField(d) <==> exists f :: AllWhitespace(FieldValue(d, f))
  {
    assert forall i :: 0 <= i < |Fields| ==> Values(d)[i] == FieldValue(d, Fields[i]);
    if exists f :: AllWhitespace(FieldValue(d, f)) {
      var f :| AllWhitespace(FieldValue(d, f));
      assert f in Fields;
      var i :| 0 <= i < |Fields| && Fields[i] == f;
      assert Trim(Values(d)[i]) == "";
    }
  }

  const EmptyForm: NewArticleData := NewArticleData("", "", "", "", "")

  class Form {
    var formData: NewArticleData

    constructor ()
      ensures formData == EmptyForm
    {
      formData := EmptyForm;
    }

    /** `handleChange`. */
    method HandleChange(f: Field, v: string)
      modifies this
      ensures FieldValue(formData, f) == v
      ensures forall g :: g != f ==> FieldValue(formData, g) == FieldValue(old(formData), g)
    {
      formData := WithField(formData, f, v);
    }

    /** `handleSubmit`: with a blank field nothing is uploaded and the form stays as
        it is; otherwise the data is uploaded as typed (untrimmed) and the form is
        cleared. */
    method HandleSubmit() returns (uploaded: Option<NewArticleData>)
      modifies this
      ensures HasBlankField(old(formData)) ==> uploaded == None && formData == old(formData)
      ensures !HasBlankField(old(formData)) ==> uploaded == Some(old(formData)) && formData == EmptyForm
      ensures uploaded.Some? ==> forall f :: !AllWhitespace(FieldValue(uploaded.value, f))
    {
      BlankFieldMeansWhitespace(formData);
      if HasBlankField(formData) {
        return None;
      }
      uploaded := Some(formData);
      formData := EmptyForm;
    }
  }
}
