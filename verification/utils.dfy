/** The web layer's upload filter: a file name is accepted when its
    lower-cased form ends with one of the allowed extensions. */
module Utils {
  import opened Wrappers
  import opened Strings

  /** The extensions accepted when the caller names none. */
  const DefaultExtensions: set<string> := {".pdf", ".docx", ".txt"}

  /** `allowed_file(filename, allowed_exts)`: an explicit set replaces the
      default one. Only the file name is lower-cased, not the extensions. */
  function AllowedFile(filename: string, allowedExts: Option<set<string>>): (r: bool)
    ensures r <==> (exists e :: e in allowedExts.GetOr(DefaultExtensions) && |e| <= |filename|
                              && LowerAscii(filename[|filename| - |e|..]) == e)
  {
    var exts := allowedExts.GetOr(DefaultExtensions);
    var lowered := LowerAscii(filename);
    var r := exists e :: e in exts && EndsWith(lowered, e);
    assert r ==> exists e :: e in exts && |e| <= |filename| && LowerAscii(filename[|filename| - |e|..]) == e by {
      if r {
        var e :| e in exts && EndsWith(lowered, e);
        LowerSuffix(filename, |filename| - |e|);
      }
    }
    assert (exists e :: e in exts && |e| <= |filename| && LowerAscii(filename[|filename| - |e|..]) == e) ==> r by {
      if e :| e in exts && |e| <= |filename| && LowerAscii(filename[|filename| - |e|..]) == e {
        LowerSuffix(filename, |filename| - |e|);
        assert EndsWith(lowered, e);
      }
    }
    r
  }

  /** Lower-casing and taking a suffix commute. */
  lemma LowerSuffix(s: string, k: nat)
    requires k <= |s|
    ensures LowerAscii(s[k..]) == LowerAscii(s)[k..]
  {
  }

  /** With the default set, an upper-case `.PDF` name passes. */
  lemma DefaultAcceptsUpperCasePdf(stem: string)
    ensures AllowedFile(stem + ".PDF", None)
  {
    var f := stem + ".PDF";
    assert f[|f| - 4..] == ".PDF";
    assert LowerAscii(".PDF") == ".pdf";
  }

  /** With the default set, a Word 97 `.doc` name is refused, although the
      extraction engine itself handles `.doc`. */
  lemma DefaultRejectsDoc(stem: string)
    ensures !AllowedFile(stem + ".doc", None)
  {
    var f := stem + ".doc";
    assert f[|f| - 1] == 'c';
    DefaultNeedsLastChar(f);
  }

  /** Every default extension ends in 'f', 'x' or 't', so a name whose
      last character is none of these, in either case, is refused. */
  lemma DefaultNeedsLastChar(f: string)
    requires f != [] && LowerChar(f[|f| - 1]) !in {'f', 'x', 't'}
    ensures !AllowedFile(f, None)
  {
    forall e | e in DefaultExtensions && |e| <= |f|
      ensures LowerAscii(f[|f| - |e|..]) != e
    {
      assert e == ".pdf" || e == ".docx" || e == ".txt";
      assert e != [] && e[|e| - 1] in {'f', 'x', 't'};
      LastCharDiffers(f, e);
    }
    assert !exists e :: e in DefaultExtensions && |e| <= |f| && LowerAscii(f[|f| - |e|..]) == e;
  }

  /** A name whose lower-cased last character is not an extension's last
      character does not end with that extension. */
  lemma LastCharDiffers(f: string, e: string)
    requires f != [] && e != [] && LowerChar(f[|f| - 1]) != e[|e| - 1]
    ensures !(|e| <= |f| && LowerAscii(f[|f| - |e|..]) == e)
  {
    if |e| <= |f| {
      var t := f[|f| - |e|..];
      assert t[|e| - 1] == f[|f| - 1];
      assert LowerAscii(t)[|e| - 1] == LowerChar(f[|f| - 1]);
    }
  }

  /** An empty set of extensions rejects every name. */
  lemma EmptySetRejects(filename: string)
    ensures !AllowedFile(filename, Some({}))
  {
  }

  /** An extension containing an upper-case ASCII letter never matches,
      because only the file name is lower-cased. */
  lemma UpperCaseExtensionNeverMatches(filename: string, ext: string)
    requires exists i :: 0 <= i < |ext| && 'A' <= ext[i] <= 'Z'
    ensures !AllowedFile(filename, Some({ext}))
  {
    var i :| 0 <= i < |ext| && 'A' <= ext[i] <= 'Z';
    forall e | e == ext && |e| <= |filename|
      ensures LowerAscii(filename[|filename| - |e|..]) != e
    {
      var t := filename[|filename| - |e|..];
      assert LowerAscii(t)[i] == LowerChar(t[i]);
    }
  }

  /** A name that passes also passes with more extensions allowed. */
  lemma MoreExtensionsAllowMore(filename: string, exts: set<string>, more: set<string>)
    requires exts <= more
    ensures AllowedFile(filename, Some(exts)) ==> AllowedFile(filename, Some(more))
  {
  }
}
