/** The save-as field of the form that posts a new download: the client-side check of the
    requested path and the handler that records what the user typed. */
module PostForm {
  import opened Wrappers
  import opened Text
  import Paths
  import Directories
  import SaveAs

  /** `isSaveAsValid`: an absent value is invalid; otherwise the value is trimmed and must be
      neither empty nor ".", must neither start nor end with '/', must not end with "/." and
      must not contain "..". */
  predicate IsSaveAsValid(value: Option<string>) {
    match value
    case None => false
    case Some(v) =>
      var t := Trim(v);
      && t != "" && t != "."
      && !StartsWith(t, "/") && !EndsWith(t, "/")
      && !EndsWith(t, "/.") && !Contains(t, "..")
  }

  /** The same rule stated character by character, as a reference for `IsSaveAsValid`. */
  predicate IsAcceptedPath(t: string) {
    && |t| > 0
    && t != "."
    && t[0] != '/'
    && t[|t| - 1] != '/'
    && !(|t| >= 2 && t[|t| - 2] == '/' && t[|t| - 1] == '.')
    && forall i :: 0 <= i < |t| - 1 ==> !(t[i] == '.' && t[i + 1] == '.')
  }

  lemma StartsWithChar(t: string, c: char)
    ensures StartsWith(t, [c]) <==> |t| > 0 && t[0] == c
  {
    if |t| > 0 {
      assert t[..1] == [t[0]];
    }
  }

  lemma EndsWithChars(t: string, c: char, d: char)
    ensures EndsWith(t, [d]) <==> |t| > 0 && t[|t| - 1] == d
    ensures EndsWith(t, [c, d]) <==> |t| >= 2 && t[|t| - 2] == c && t[|t| - 1] == d
  {
    if |t| > 0 {
      assert t[|t| - 1..] == [t[|t| - 1]];
    }
    if |t| >= 2 {
      assert t[|t| - 2..] == [t[|t| - 2], t[|t| - 1]];
    }
  }

  lemma ContainsPair(t: string, c: char, d: char)
    ensures Contains(t, [c, d]) <==> exists i :: 0 <= i < |t| - 1 && t[i] == c && t[i + 1] == d
  {
    if Contains(t, [c, d]) {
      var i :| 0 <= i <= |t| - 2 && OccursAt(t, [c, d], i);
      assert t[i..i + 2][0] == t[i] && t[i..i + 2][1] == t[i + 1];
    }
    if exists i :: 0 <= i < |t| - 1 && t[i] == c && t[i + 1] == d {
      var i :| 0 <= i < |t| - 1 && t[i] == c && t[i + 1] == d;
      assert t[i..i + 2] == [c, d];
      assert OccursAt(t, [c, d], i);
    }
  }

  /** `isSaveAsValid` accepts exactly the present values whose trimmed text passes every
      character-level rule. */
  lemma SaveAsValidIff(value: Option<string>)
    ensures IsSaveAsValid(value) <==> value.Some? && IsAcceptedPath(Trim(value.value))
  {
    if value.Some? {
      var t := Trim(value.value);
      StartsWithChar(t, '/');
      EndsWithChars(t, '/', '/');
      EndsWithChars(t, '/', '.');
      ContainsPair(t, '.', '.');
    }
  }

  /** Only the trimmed text decides: trimming a value first changes nothing. */
  lemma TrimmedValueDecides(v: string)
    ensures IsSaveAsValid(Some(Trim(v))) == IsSaveAsValid(Some(v))
  {
    TrimOfTrimmed(Trim(v));
  }

  /** A value the form accepts is never blank, so the server never refuses it as blank. */
  lemma ValidIsNotBlank(v: string)
    ensures IsSaveAsValid(Some(v)) ==> !IsNullOrWhiteSpace(v)
  {
    TrimIsEmptyIffBlank(v);
  }

  /** Two neighbouring '.' that are not white space lie inside the trimmed text. */
  lemma PairInsideTrim(v: string, j: nat)
    requires j + 1 < |v| && v[j] == '.' && v[j + 1] == '.'
    ensures Contains(Trim(v), "..")
  {
    var t := Trim(v);
    var l := LeadingWhiteSpace(v);
    assert t == v[l..l + |t|];
    assert l <= j && j + 1 < l + |t| by {
      assert !IsWhiteSpace(v[j]) && !IsWhiteSpace(v[j + 1]);
    }
    assert t[j - l] == '.' && t[j - l + 1] == '.';
    ContainsPair(t, '.', '.');
  }

  /** A ".." in the trimmed text of a prefix is a ".." of the whole text. */
  lemma PairOfTrimmedPrefix(v: string, k: nat) returns (j: nat)
    requires k <= |v| && Contains(Trim(v[..k]), "..")
    ensures j + 1 < |v| && v[j] == '.' && v[j + 1] == '.'
  {
    var p := v[..k];
    var r := Trim(p);
    var a := LeadingWhiteSpace(p);
    assert r == p[a..a + |r|];
    ContainsPair(r, '.', '.');
    var i :| 0 <= i < |r| - 1 && r[i] == '.' && r[i + 1] == '.';
    j := a + i;
    assert j + 1 < k;
    assert r[i] == p[j] == v[j];
    assert r[i + 1] == p[j + 1] == v[j + 1];
  }

  /** A value the form accepts never yields a sub-directory that the server refuses for
      containing "..": the server's sub-directory is a stretch of the trimmed value. */
  lemma ValidSubDirHasNoParent(v: string)
    requires IsSaveAsValid(Some(v))
    ensures !Contains(SaveAs.SplitSubDir(v), "..")
  {
    var k := LastIndexOf(v, Paths.Separator);
    if k > 1 && Contains(SaveAs.SplitSubDir(v), "..") {
      var j := PairOfTrimmedPrefix(v, k);
      PairInsideTrim(v, j);
      assert false;
    }
  }

  /** A value without surrounding white space is judged as written. */
  lemma ValidityOfTrimmed(v: string)
    requires v != [] ==> !IsWhiteSpace(v[0]) && !IsWhiteSpace(v[|v| - 1])
    ensures IsSaveAsValid(Some(v)) <==> IsAcceptedPath(v)
  {
    TrimOfTrimmed(v);
    SaveAsValidIff(Some(v));
  }

  /** The absent value, the empty text and "." are refused. */
  lemma RefusedEmptyExamples()
    ensures !IsSaveAsValid(None)
    ensures !IsSaveAsValid(Some("")) && !IsSaveAsValid(Some("."))
  {
    SaveAsValidIff(None);
    ValidityOfTrimmed("");
    ValidityOfTrimmed(".");
  }

  /** A leading '/', a trailing '/' and a trailing "/." are refused. */
  lemma RefusedSeparatorExamples(v: string)
    requires v == "/f.iso" || v == "dir/" || v == "dir/."
    ensures !IsSaveAsValid(Some(v))
  {
    ValidityOfTrimmed(v);
  }

  /** A ".." anywhere is refused. */
  lemma RefusedParentExample()
    ensures !IsSaveAsValid(Some("a/../f"))
  {
    var v := "a/../f";
    assert v[2] == '.' && v[3] == '.';
    ValidityOfTrimmed(v);
  }

  /** A text with a single '.' has no "..". */
  lemma SingleDotIsNoPair(t: string, k: nat)
    requires forall i :: 0 <= i < |t| && i != k ==> t[i] != '.'
    ensures forall i :: 0 <= i < |t| - 1 ==> !(t[i] == '.' && t[i + 1] == '.')
  {
  }

  /** A path with one '.', no leading or trailing '/' and not ending in "/." passes. */
  lemma AcceptedExample(v: string, k: nat)
    requires (v == "sub/file.iso" && k == 8) || (v == "a.b/file" && k == 1)
    ensures IsSaveAsValid(Some(v))
  {
    assert forall i :: 0 <= i < |v| && i != k ==> v[i] != '.';
    SingleDotIsNoPair(v, k);
    ValidityOfTrimmed(v);
  }

  /** The form and the server disagree on "a.b/file": the form lets it through, and the
      server refuses it because its only '.' is in the sub-directory. */
  lemma DotInSubDirPassesTheForm()
    ensures IsSaveAsValid(Some("a.b/file"))
    ensures SaveAs.New(SaveAs.CompletedRoot, "a.b/file", 0) == Failure(SaveAs.NegativeLengthMessage)
  {
    AcceptedExample("a.b/file", 1);
    SaveAs.DotOnlyInSubDirFails();
  }

  /** The form and the server disagree on "/f.iso": the form refuses it, and the server
      drops the leading separator and stores "f.iso" in the root. */
  lemma LeadingSeparatorIsRefusedByTheFormOnly()
    ensures !IsSaveAsValid(Some("/f.iso"))
    ensures var s := SaveAs.New(SaveAs.CompletedRoot, "/f.iso", 0);
      s.Success? && s.value.name == "f.iso" && s.value.directory == SaveAs.CompletedRoot.path
  {
    ValidityOfTrimmed("/f.iso");
    SaveAs.ShortPrefixNames();
    assert "/f.iso" == "" + [Paths.Separator] + "f" + ".iso";
    SaveAs.NewOfShortPrefix(SaveAs.CompletedRoot, "", "f", ".iso", 0);
  }

  /** `saveAs`: the text in the field, whether the user typed something, and whether the
      text passes `isSaveAsValid`. */
  datatype SaveAsState = SaveAsState(value: string, userChanged: bool, isValid: bool)

  /** The form's save-as state. */
  class SaveAsInput {
    var saveAs: SaveAsState

    /** The state the form starts with: empty, untouched and invalid. */
    constructor ()
      ensures saveAs == SaveAsState("", false, false)
    {
      saveAs := SaveAsState("", false, false);
    }

    /** `handleSaveAsInputChange`: stores the typed text, counts it as the user's choice
        exactly when it is non-empty, and validates it. A valid value is always the user's
        choice, and clearing the field hands the name back to the link. */
    method HandleSaveAsInputChange(value: string)
      modifies this
      ensures saveAs.value == value
      ensures saveAs.userChanged <==> value != ""
      ensures saveAs.isValid <==> IsAcceptedPath(Trim(value))
      ensures saveAs.isValid ==> saveAs.userChanged
    {
      SaveAsValidIff(Some(value));
      saveAs := SaveAsState(value, value != "", IsSaveAsValid(Some(value)));
    }
  }
}
