/**
 * Helpers and small state updaters of the post editor, resources/js/pages/post/create.tsx:
 * `slugify` (checked against the server's `alpha_dash:ascii` slug rule), `mergeErrors`, the
 * selected-uploads toggle, the "Add New" category handler and the category field names.
 */
module PostCreate {
  import opened Wrappers
  import Text
  import MediaUploader

  // ---------------------------------------------------------------------------------------
  // Character classes of JavaScript regular expressions

  /** `\s`, and what `String.prototype.trim` removes: the ECMAScript white space and line terminators. */
  predicate IsJsWhitespace(c: char)
  {
    var n := c as int;
    n == 0x09 || n == 0x0A || n == 0x0B || n == 0x0C || n == 0x0D || n == 0x20 || n == 0xA0 ||
    n == 0x1680 || (0x2000 <= n <= 0x200A) || n == 0x2028 || n == 0x2029 || n == 0x202F ||
    n == 0x205F || n == 0x3000 || n == 0xFEFF
  }

  /** `\w`: ASCII letters, digits and the underscore. */
  predicate IsWordChar(c: char)
  {
    Text.IsAsciiLower(c) || Text.IsAsciiUpper(c) || Text.IsDigit(c) || c == '_'
  }

  predicate NoWordChar(s: string)
  {
    forall i :: 0 <= i < |s| ==> !IsWordChar(s[i])
  }

  /** Characters that `slugify` can leave in its output. */
  predicate IsSlugChar(c: char)
  {
    Text.IsAsciiLower(c) || Text.IsDigit(c) || c == '_' || c == '-'
  }

  predicate NoDoubleHyphen(s: string)
  {
    forall i :: 0 <= i < |s| - 1 ==> !(s[i] == '-' && s[i + 1] == '-')
  }

  /**
   * Laravel's `alpha_dash:ascii` rule: a non-empty string of ASCII letters, digits, dashes
   * and underscores.
   */
  predicate AlphaDashAscii(s: string)
  {
    |s| > 0 && forall i :: 0 <= i < |s| ==> IsWordChar(s[i]) || s[i] == '-'
  }

  // ---------------------------------------------------------------------------------------
  // slugify (lines 885-891)

  /** `trim`: white space removed from both ends. */
  function Trim(s: string): string
  {
    var t := s[Text.LeadingRun(s, IsJsWhitespace)..];
    t[..|t| - Text.TrailingRun(t, IsJsWhitespace)]
  }

  /** Leading non-word characters skipped: the rest of one `[\s\W-]+` match. */
  function SkipNonWord(s: string): (r: string)
    ensures |r| <= |s|
    ensures r != [] ==> IsWordChar(r[0])
  {
    s[Text.LeadingRun(s, c => !IsWordChar(c))..]
  }

  /**
   * `replace(/[\s\W-]+/g, "-")`: every maximal run of non-word characters (white space and
   * hyphens are non-word characters too) becomes one hyphen.
   */
  function Collapse(s: string): (r: string)
    ensures forall i :: 0 <= i < |r| ==> IsWordChar(r[i]) || r[i] == '-'
    ensures NoDoubleHyphen(r)
    ensures |r| <= |s|
    ensures r == [] <==> s == []
    ensures s != [] ==> (r[0] == '-' <==> !IsWordChar(s[0]))
    decreases |s|
  {
    if s == [] then ""
    else if IsWordChar(s[0]) then [s[0]] + Collapse(s[1..])
    else "-" + Collapse(SkipNonWord(s[1..]))
  }

  predicate IsHyphen(c: char) { c == '-' }

  /** `replace(/^-+|-+$/g, "")`: hyphens removed from both ends. */
  function StripHyphens(s: string): string
  {
    var t := s[Text.LeadingRun(s, IsHyphen)..];
    t[..|t| - Text.TrailingRun(t, IsHyphen)]
  }

  /** `slugify`: trim, lower-case, collapse non-word runs into hyphens, strip end hyphens. */
  function Slugify(text: string): string
  {
    StripHyphens(Collapse(Text.AsciiLower(Trim(text))))
  }

  /** A run covering the whole string. */
  lemma FullRun(s: string, p: char -> bool)
    requires forall j :: 0 <= j < |s| ==> p(s[j])
    ensures Text.LeadingRun(s, p) == |s|
  {
  }

  /**
   * Stripping end hyphens leaves a contiguous middle part: no hyphen at either end, and its
   * charset and single hyphens are those of the input.
   */
  lemma StripHyphensShape(s: string)
    requires forall i :: 0 <= i < |s| ==> IsWordChar(s[i]) || s[i] == '-'
    requires NoDoubleHyphen(s)
    ensures var r := StripHyphens(s);
      && (forall i :: 0 <= i < |r| ==> r[i] in s && (IsWordChar(r[i]) || r[i] == '-'))
      && NoDoubleHyphen(r)
      && (r != [] ==> r[0] != '-' && r[|r| - 1] != '-')
      && |r| <= |s|
  {
    var a := Text.LeadingRun(s, IsHyphen);
    var t := s[a..];
    var m := |t| - Text.TrailingRun(t, IsHyphen);
    var r := StripHyphens(s);
    assert r == t[..m];
    assert forall i :: 0 <= i < |r| ==> r[i] == s[a + i];
  }

  /** Lower-casing a string turns every word character into a lower-case one. */
  lemma LowerWordChars(s: string)
    ensures forall i :: 0 <= i < |s| ==>
      (IsWordChar(Text.AsciiLower(s)[i]) <==> IsWordChar(s[i])) && !Text.IsAsciiUpper(Text.AsciiLower(s)[i])
  {
  }

  /** Every character of the collapsed string is a hyphen or a character of the input. */
  lemma {:induction false} CollapseChars(s: string)
    ensures forall i :: 0 <= i < |Collapse(s)| ==> Collapse(s)[i] == '-' || Collapse(s)[i] in s
    decreases |s|
  {
    if s != [] {
      if IsWordChar(s[0]) {
        CollapseChars(s[1..]);
      } else {
        var rest := SkipNonWord(s[1..]);
        CollapseChars(rest);
        var k := Text.LeadingRun(s[1..], c => !IsWordChar(c));
        assert forall i :: 0 <= i < |rest| ==> rest[i] == s[1 + k + i];
      }
    }
  }

  /**
   * `slugify`'s output is made of lower-case ASCII letters, digits, underscores and single
   * hyphens, never starts or ends with a hyphen, and is no longer than its input.
   */
  lemma SlugifyShape(text: string)
    ensures var r := Slugify(text);
      && (forall i :: 0 <= i < |r| ==> IsSlugChar(r[i]))
      && NoDoubleHyphen(r)
      && (r != [] ==> r[0] != '-' && r[|r| - 1] != '-')
      && |r| <= |text|
  {
    var t := Trim(text);
    var l := Text.AsciiLower(t);
    var c := Collapse(l);
    LowerWordChars(t);
    CollapseChars(l);
    assert forall i :: 0 <= i < |c| ==> !Text.IsAsciiUpper(c[i]);
    StripHyphensShape(c);
  }

  /** The output passes the server's slug rule whenever it is not empty. */
  lemma SlugifyPassesAlphaDash(text: string)
    requires Slugify(text) != ""
    ensures AlphaDashAscii(Slugify(text))
  {
    SlugifyShape(text);
  }

  /** Collapsing leaves alone a string of word characters and single hyphens. */
  lemma {:induction false} CollapseFixed(s: string)
    requires forall i :: 0 <= i < |s| ==> IsWordChar(s[i]) || s[i] == '-'
    requires NoDoubleHyphen(s)
    ensures Collapse(s) == s
    decreases |s|
  {
    if s != [] {
      var rest := s[1..];
      forall i | 0 <= i < |rest| - 1
        ensures !(rest[i] == '-' && rest[i + 1] == '-')
      {
        assert rest[i] == s[i + 1] && rest[i + 1] == s[i + 2];
      }
      CollapseFixed(rest);
      if !IsWordChar(s[0]) {
        assert rest == [] || IsWordChar(rest[0]);
        assert SkipNonWord(rest) == rest;
      }
    }
  }

  /** A string of slug characters with no hyphen at either end. */
  predicate IsSlug(s: string)
  {
    && (forall i :: 0 <= i < |s| ==> IsSlugChar(s[i]))
    && NoDoubleHyphen(s)
    && (s != [] ==> s[0] != '-' && s[|s| - 1] != '-')
  }

  lemma TrimSlug(s: string)
    requires IsSlug(s)
    ensures Trim(s) == s
  {
    assert Text.LeadingRun(s, IsJsWhitespace) == 0;
    assert s[0..] == s;
    assert Text.TrailingRun(s, IsJsWhitespace) == 0;
  }

  lemma LowerSlug(s: string)
    requires IsSlug(s)
    ensures Text.AsciiLower(s) == s
  {
  }

  lemma StripSlug(s: string)
    requires IsSlug(s)
    ensures StripHyphens(s) == s
  {
    assert Text.LeadingRun(s, IsHyphen) == 0;
    assert s[0..] == s;
    assert Text.TrailingRun(s, IsHyphen) == 0;
  }

  /** `slugify` is idempotent. */
  lemma SlugifyIdempotent(text: string)
    ensures Slugify(Slugify(text)) == Slugify(text)
  {
    var r := Slugify(text);
    SlugifyShape(text);
    TrimSlug(r);
    LowerSlug(r);
    CollapseFixed(r);
    StripSlug(r);
  }

  /** A word character somewhere in the input survives collapsing. */
  lemma {:induction false} CollapseKeepsWord(s: string, i: nat)
    requires i < |s| && IsWordChar(s[i])
    ensures !NoWordChar(Collapse(s))
    decreases |s|
  {
    if IsWordChar(s[0]) {
      assert Collapse(s)[0] == s[0];
    } else {
      var k := Text.LeadingRun(s[1..], c => !IsWordChar(c));
      var rest := SkipNonWord(s[1..]);
      assert rest == s[1 + k..];
      assert i >= 1 + k by {
        assert s[1..][i - 1] == s[i];
      }
      assert rest[i - 1 - k] == s[i];
      CollapseKeepsWord(rest, i - 1 - k);
      var j :| 0 <= j < |Collapse(rest)| && IsWordChar(Collapse(rest)[j]);
      assert Collapse(s)[j + 1] == Collapse(rest)[j];
    }
  }

  /** A word character of the input survives trimming. */
  lemma TrimKeepsWord(s: string, i: nat)
    requires i < |s| && IsWordChar(s[i])
    ensures !NoWordChar(Trim(s))
  {
    var a := Text.LeadingRun(s, IsJsWhitespace);
    var u := s[a..];
    var b := Text.TrailingRun(u, IsJsWhitespace);
    assert !IsJsWhitespace(s[i]);
    assert i >= a;
    assert u[i - a] == s[i];
    assert i - a < |u| - b;
    assert Trim(s)[i - a] == s[i];
  }

  /** A word character of the input survives stripping end hyphens. */
  lemma StripKeepsWord(s: string, j: nat)
    requires j < |s| && IsWordChar(s[j])
    ensures StripHyphens(s) != ""
  {
    var a := Text.LeadingRun(s, IsHyphen);
    var t := s[a..];
    var b := Text.TrailingRun(t, IsHyphen);
    assert j >= a;
    assert t[j - a] == s[j];
    assert j - a < |t| - b;
  }

  /**
   * `slugify` gives "" exactly for inputs without a word character: white space, punctuation,
   * hyphens and non-ASCII characters only.
   */
  lemma SlugifyEmptyIff(text: string)
    ensures Slugify(text) == "" <==> NoWordChar(text)
  {
    var t := Trim(text);
    var l := Text.AsciiLower(t);
    var c := Collapse(l);
    LowerWordChars(t);
    if NoWordChar(text) {
      var a := Text.LeadingRun(text, IsJsWhitespace);
      assert forall i :: 0 <= i < |t| ==> t[i] == text[a + i];
      assert NoWordChar(l);
      CollapseChars(l);
      assert forall i :: 0 <= i < |c| ==> IsHyphen(c[i]);
      FullRun(c, IsHyphen);
    } else {
      var i :| 0 <= i < |text| && IsWordChar(text[i]);
      TrimKeepsWord(text, i);
      var k :| 0 <= k < |t| && IsWordChar(t[k]);
      assert IsWordChar(l[k]);
      CollapseKeepsWord(l, k);
      var j :| 0 <= j < |c| && IsWordChar(c[j]);
      StripKeepsWord(c, j);
    }
  }

  // ---------------------------------------------------------------------------------------
  // mergeErrors (lines 893-895)

  /** The truthy messages of `keys`, in key order (the `flatMap`). */
  function Messages(errors: map<string, string>, keys: seq<string>): (ms: seq<string>)
    ensures |ms| <= |keys|
    ensures forall i :: 0 <= i < |ms| ==> ms[i] != "" && ms[i] in errors.Values
  {
    if keys == [] then []
    else (if keys[0] in errors && errors[keys[0]] != "" then [errors[keys[0]]] else [])
         + Messages(errors, keys[1..])
  }

  /** `mergeErrors`: the truthy messages of `keys` joined by ". ". */
  function MergeErrors(errors: map<string, string>, keys: seq<string>): string
  {
    Text.Join(Messages(errors, keys), ". ")
  }

  /** Messages of a concatenated key list come in key order. */
  lemma {:induction false} MessagesAppend(errors: map<string, string>, a: seq<string>, b: seq<string>)
    ensures Messages(errors, a + b) == Messages(errors, a) + Messages(errors, b)
  {
    if a == [] {
      assert a + b == b;
    } else {
      assert (a + b)[0] == a[0];
      assert (a + b)[1..] == a[1..] + b;
      MessagesAppend(errors, a[1..], b);
    }
  }

  /** The merged text is "" exactly when none of the keys has a non-empty message. */
  lemma {:induction false} MergeErrorsEmptyIff(errors: map<string, string>, keys: seq<string>)
    ensures MergeErrors(errors, keys) == "" <==>
      forall i :: 0 <= i < |keys| ==> keys[i] !in errors || errors[keys[i]] == ""
  {
    Text.JoinEmptyIff(Messages(errors, keys), ". ");
    MessagesEmptyIff(errors, keys);
  }

  lemma {:induction false} MessagesEmptyIff(errors: map<string, string>, keys: seq<string>)
    ensures Messages(errors, keys) == [] <==>
      forall i :: 0 <= i < |keys| ==> keys[i] !in errors || errors[keys[i]] == ""
  {
    if keys != [] {
      MessagesEmptyIff(errors, keys[1..]);
      assert forall i :: 1 <= i < |keys| ==> keys[i] == keys[1..][i - 1];
    }
  }

  /** Two keys with messages merge as "first. second". */
  lemma MergeTwo(errors: map<string, string>, a: string, b: string)
    requires a in errors && errors[a] != "" && b in errors && errors[b] != ""
    ensures MergeErrors(errors, [a, b]) == errors[a] + ". " + errors[b]
  {
    assert [a, b][1..] == [b];
    assert [b][1..] == [];
    assert Messages(errors, [a, b]) == [errors[a], errors[b]];
  }

  // ---------------------------------------------------------------------------------------
  // The selected-uploads toggle (lines 774-783)

  /** The selection after one click on `upload`: removed if it was selected, added otherwise. */
  function Toggled(selected: map<string, MediaUploader.SignedUpload>, upload: MediaUploader.SignedUpload)
    : (r: map<string, MediaUploader.SignedUpload>)
    ensures upload.key in selected ==> r.Keys == selected.Keys - {upload.key}
    ensures upload.key !in selected ==> r.Keys == selected.Keys + {upload.key} && r[upload.key] == upload
    ensures forall k :: k in r && k != upload.key ==> r[k] == selected[k]
  {
    if upload.key in selected then selected - {upload.key} else selected[upload.key := upload]
  }

  /** Clicking the same upload twice restores the selection. */
  lemma ToggleTwice(selected: map<string, MediaUploader.SignedUpload>, upload: MediaUploader.SignedUpload)
    requires upload.key in selected ==> selected[upload.key] == upload
    ensures Toggled(Toggled(selected, upload), upload) == selected
  {
  }

  /** The picker's selection: successful uploads, each under its own key. */
  class UploadPicker {
    var selected: map<string, MediaUploader.SignedUpload>

    ghost predicate Valid()
      reads this
    {
      forall k :: k in selected ==> selected[k].key == k && selected[k].state == MediaUploader.Successful
    }

    constructor ()
      ensures Valid() && selected == map[]
    {
      selected := map[];
    }

    /** The click handler, offered only for successful uploads (line 770). */
    method Toggle(upload: MediaUploader.SignedUpload)
      requires Valid()
      requires upload.state == MediaUploader.Successful
      modifies this
      ensures Valid()
      ensures selected == Toggled(old(selected), upload)
    {
      var next := selected;
      if upload.key in selected {
        next := next - {upload.key};
      } else {
        next := next[upload.key := upload];
      }
      selected := next;
    }
  }

  // ---------------------------------------------------------------------------------------
  // New categories (lines 54-60, 207, 226-237, 248)

  /** The sentinel that opens an empty "New Category" field (line 883). */
  const EmptyCategory: string := ""

  class CategoryEditor {
    /** The number of categories the page was rendered with. */
    const existingCount: nat
    var newCategories: seq<string>
    /** The "New Category" text field; `None` while the field is closed. */
    var newCategory: Option<string>

    /** `hasCategories` (line 57). */
    function HasCategories(): bool
      reads this
    {
      existingCount > 0 || |newCategories| > 0
    }

    /** Whether the field and its "Add New" button are shown (line 207). */
    function ShowsField(): bool
      reads this
    {
      newCategory.Some? || !HasCategories()
    }

    /** Initial state (lines 54-60): the field starts open exactly when there is no category. */
    constructor (existingCount: nat)
      ensures this.existingCount == existingCount && newCategories == []
      ensures newCategory == (if existingCount > 0 then None else Some(EmptyCategory))
      ensures ShowsField() <==> existingCount == 0
    {
      this.existingCount := existingCount;
      newCategories := [];
      newCategory := if existingCount > 0 then None else Some(EmptyCategory);
    }

    /** Typing into the field (lines 217-219). */
    method Type(value: string)
      modifies this`newCategory
      ensures newCategory == Some(value)
    {
      newCategory := Some(value);
    }

    /** The button shown while the field is closed (line 248): it opens an empty field. */
    method Open()
      modifies this`newCategory
      ensures newCategory == Some(EmptyCategory) && ShowsField()
    {
      newCategory := Some(EmptyCategory);
    }

    /**
     * "Add New" (lines 226-237): a non-empty name is appended and the field closes; an empty
     * or absent name changes nothing.
     */
    method AddNew()
      modifies this`newCategories, this`newCategory
      ensures old(newCategory).Some? && old(newCategory).value != "" ==>
        newCategories == old(newCategories) + [old(newCategory).value] && newCategory == None
      ensures !(old(newCategory).Some? && old(newCategory).value != "") ==>
        newCategories == old(newCategories) && newCategory == old(newCategory)
      ensures HasCategories() ==> old(HasCategories()) || |newCategories| > 0
    {
      if newCategory.Some? && |newCategory.value| > 0 {
        newCategories := newCategories + [newCategory.value];
        newCategory := None;
      }
    }
  }

  // ---------------------------------------------------------------------------------------
  // Category field names (lines 199-205, 586-614)

  /** The three fields a category row can post. */
  datatype Part = Id | Name | Slug

  function PartName(p: Part): string
  {
    match p
    case Id => "id"
    case Name => "name"
    case Slug => "slug"
  }

  /** One form field: the row index and part its name encodes, and its value. */
  datatype FormField = FormField(index: nat, part: Part, value: string)

  /** The field's name, `categories[<index>][<part>]`. */
  function FieldName(f: FormField): string
  {
    "categories[" + (Text.NatToString(f.index) + "][" + PartName(f.part) + "]")
  }

  /**
   * The fields `CategoryInput` renders (lines 599-610): a category with a truthy id posts that
   * id; otherwise the title posts as the name (for id 0, the id's text does), with its slug
   * in a hidden field.
   */
  function CategoryFields(index: nat, id: Option<int>, title: string): (fs: seq<FormField>)
    ensures id.Some? && id.value != 0 ==> fs == [FormField(index, Id, Text.IntToString(id.value))]
    ensures id.None? ==> fs == [FormField(index, Name, title), FormField(index, Slug, Slugify(title))]
    ensures id == Some(0) ==> fs == [FormField(index, Name, "0"), FormField(index, Slug, Slugify(title))]
  {
    var truthy := id.Some? && id.value != 0;
    var checkbox := FormField(index, if truthy then Id else Name,
                              if id.Some? then Text.IntToString(id.value) else title);
    if truthy then [checkbox] else [checkbox, FormField(index, Slug, Slugify(title))]
  }

  /** An existing category: its id and its name. */
  datatype Category = Category(id: int, name: string)

  /**
   * Every category field of the form (lines 192-205): existing categories at indices
   * 0, 1, ..., then the new ones, by name only, at the indices after them.
   */
  function CategoryForm(existing: seq<Category>, added: seq<string>): seq<FormField>
  {
    ExistingFields(existing, 0) + AddedFields(added, |existing|)
  }

  function ExistingFields(cs: seq<Category>, from: nat): seq<FormField>
  {
    if cs == [] then [] else CategoryFields(from, Some(cs[0].id), cs[0].name) + ExistingFields(cs[1..], from + 1)
  }

  function AddedFields(names: seq<string>, from: nat): seq<FormField>
  {
    if names == [] then [] else CategoryFields(from, None, names[0]) + AddedFields(names[1..], from + 1)
  }

  function PartRank(p: Part): nat
  {
    match p
    case Id => 0
    case Name => 1
    case Slug => 2
  }

  /** Fields sorted strictly by row index, then by part. */
  predicate Ordered(fs: seq<FormField>)
  {
    forall i, j :: 0 <= i < j < |fs| ==>
      fs[i].index < fs[j].index || (fs[i].index == fs[j].index && PartRank(fs[i].part) < PartRank(fs[j].part))
  }

  predicate InRows(fs: seq<FormField>, lo: nat, hi: nat)
  {
    forall i :: 0 <= i < |fs| ==> lo <= fs[i].index < hi
  }

  /** Two ordered runs over consecutive row ranges make one ordered run. */
  lemma OrderedAppend(a: seq<FormField>, b: seq<FormField>, lo: nat, mid: nat, hi: nat)
    requires lo <= mid <= hi
    requires Ordered(a) && Ordered(b) && InRows(a, lo, mid) && InRows(b, mid, hi)
    ensures Ordered(a + b) && InRows(a + b, lo, hi)
  {
  }

  /** One row's fields are ordered and belong to that row. */
  lemma RowOrdered(index: nat, id: Option<int>, title: string)
    ensures Ordered(CategoryFields(index, id, title)) && InRows(CategoryFields(index, id, title), index, index + 1)
  {
  }

  lemma {:induction false} ExistingFieldsOrdered(cs: seq<Category>, from: nat)
    ensures Ordered(ExistingFields(cs, from)) && InRows(ExistingFields(cs, from), from, from + |cs|)
  {
    if cs != [] {
      ExistingFieldsOrdered(cs[1..], from + 1);
      var first := CategoryFields(from, Some(cs[0].id), cs[0].name);
      RowOrdered(from, Some(cs[0].id), cs[0].name);
      OrderedAppend(first, ExistingFields(cs[1..], from + 1), from, from + 1, from + |cs|);
    }
  }

  lemma {:induction false} AddedFieldsOrdered(names: seq<string>, from: nat)
    ensures Ordered(AddedFields(names, from)) && InRows(AddedFields(names, from), from, from + |names|)
  {
    if names != [] {
      AddedFieldsOrdered(names[1..], from + 1);
      var first := CategoryFields(from, None, names[0]);
      RowOrdered(from, None, names[0]);
      OrderedAppend(first, AddedFields(names[1..], from + 1), from, from + 1, from + |names|);
    }
  }

  /** No two fields of the category form share a name. */
  lemma CategoryFormDistinctNames(existing: seq<Category>, added: seq<string>)
    ensures var fs := CategoryForm(existing, added);
      forall i, j :: 0 <= i < j < |fs| ==> FieldName(fs[i]) != FieldName(fs[j])
  {
    var fs := CategoryForm(existing, added);
    ExistingFieldsOrdered(existing, 0);
    AddedFieldsOrdered(added, |existing|);
    OrderedAppend(ExistingFields(existing, 0), AddedFields(added, |existing|), 0, |existing|, |existing| + |added|);
    forall i, j | 0 <= i < j < |fs| ensures FieldName(fs[i]) != FieldName(fs[j]) {
      FieldNamesInjective(fs[i].index, PartName(fs[i].part), fs[j].index, PartName(fs[j].part));
    }
  }

  /** Rendered names determine the row index and the part. */
  lemma FieldNamesInjective(m: nat, a: string, n: nat, b: string)
    ensures "categories[" + (Text.NatToString(m) + "][" + a + "]") == "categories[" + (Text.NatToString(n) + "][" + b + "]")
        <==> m == n && a == b
  {
    if "categories[" + (Text.NatToString(m) + "][" + a + "]") == "categories[" + (Text.NatToString(n) + "][" + b + "]") {
      var sm, sn := Text.NatToString(m), Text.NatToString(n);
      Text.NatToStringRoundTrip(m);
      Text.NatToStringRoundTrip(n);
      DropPrefix("categories[", sm + "][" + a + "]", sn + "][" + b + "]");
      DigitsBeforeBracket(sm, a, sn, b);
      Text.NatToStringInjective(m, n);
    }
  }

  lemma DropPrefix(p: string, x: string, y: string)
    requires p + x == p + y
    ensures x == y
  {
    assert x == (p + x)[|p|..];
    assert y == (p + y)[|p|..];
  }

  /** `digits] [part]` splits uniquely: digits contain no bracket. */
  lemma DigitsBeforeBracket(d: string, a: string, e: string, b: string)
    requires Text.AllDigits(d) && Text.AllDigits(e)
    requires d + "][" + a + "]" == e + "][" + b + "]"
    ensures d == e && a == b
  {
    var x, y := d + "][" + a + "]", e + "][" + b + "]";
    NoBracketIn(d, "][" + a + "]");
    NoBracketIn(e, "][" + b + "]");
    assert x[|d|] == ']' && y[|e|] == ']';
    assert |d| == |e|;
    assert d == x[..|d|] && e == y[..|e|];
    assert a == x[|d| + 2..|x| - 1] && b == y[|e| + 2..|y| - 1];
  }

  lemma NoBracketIn(d: string, rest: string)
    requires Text.AllDigits(d)
    ensures forall j :: 0 <= j < |d| ==> (d + rest)[j] != ']'
  {
  }
}
