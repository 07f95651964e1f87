/** The stateless helpers the HTML templates call: the id a file-list title gets,
    the shortened file name, asset paths, the per-file id and the link to a file. */
module ViewHelpers {
  import opened Text
  import opened Paths
  import opened Coverage

  // ---------------------------------------------------------------------------
  // title_id: title.gsub(/^[^a-zA-Z]+/, "").gsub(/[^a-zA-Z0-9\-_]/, "")
  // ---------------------------------------------------------------------------

  /** `gsub(/^[^a-zA-Z]+/, "")`: at every line start, the run of non-letters found
      there is deleted. `armed` holds at a line start (the start of the string or just
      after a '\n') and inside a run being deleted. */
  function StripLineStartNonLetters(s: string, armed: bool): (r: string)
    ensures |r| <= |s|
    ensures armed && r != [] ==> IsLetter(r[0])
  {
    if s == [] then []
    else if armed && !IsLetter(s[0]) then StripLineStartNonLetters(s[1..], true)
    else [s[0]] + StripLineStartNonLetters(s[1..], s[0] == '\n')
  }

  /** `gsub(/[^a-zA-Z0-9\-_]/, "")`: every character outside the id class is deleted. */
  function KeepIdChars(s: string): (r: string)
    ensures |r| <= |s|
    ensures forall i :: 0 <= i < |r| ==> IsIdChar(r[i])
    ensures s != [] && IsIdChar(s[0]) ==> r != [] && r[0] == s[0]
  {
    if s == [] then []
    else if IsIdChar(s[0]) then [s[0]] + KeepIdChars(s[1..])
    else KeepIdChars(s[1..])
  }

  /** The id a file-list table gets from its title: a valid HTML id fragment, made of
      [A-Za-z0-9_-] only, empty or starting with a letter, never longer than the title. */
  function TitleId(title: string): (r: string)
    ensures forall i :: 0 <= i < |r| ==> IsIdChar(r[i])
    ensures r == [] || IsLetter(r[0])
    ensures |r| <= |title|
  {
    KeepIdChars(StripLineStartNonLetters(title, true))
  }

  lemma {:induction false} KeepIdCharsOfIdChars(s: string)
    requires forall i :: 0 <= i < |s| ==> IsIdChar(s[i])
    ensures KeepIdChars(s) == s
  {
    if s != [] {
      KeepIdCharsOfIdChars(s[1..]);
      assert s == [s[0]] + s[1..];
    }
  }

  /** Away from line starts, a string without line breaks loses nothing to the strip. */
  lemma {:induction false} StripUnarmedNoNewline(s: string)
    requires forall i :: 0 <= i < |s| ==> s[i] != '\n'
    ensures StripLineStartNonLetters(s, false) == s
  {
    if s != [] {
      StripUnarmedNoNewline(s[1..]);
      assert s == [s[0]] + s[1..];
    }
  }

  /** Sanitising a title id again changes nothing. */
  lemma TitleIdIdempotent(title: string)
    ensures TitleId(TitleId(title)) == TitleId(title)
  {
    var t := TitleId(title);
    if t != [] {
      assert forall i :: 0 <= i < |t[1..]| ==> t[1..][i] != '\n' by {
        forall i | 0 <= i < |t[1..]| ensures t[1..][i] != '\n' {
          assert IsIdChar(t[i + 1]);
        }
      }
      StripUnarmedNoNewline(t[1..]);
      assert StripLineStartNonLetters(t, true) == [t[0]] + t[1..];
      assert [t[0]] + t[1..] == t;
    }
    KeepIdCharsOfIdChars(t);
  }

  lemma {:induction false} KeepIdCharsAppend(a: string, b: string)
    ensures KeepIdChars(a + b) == KeepIdChars(a) + KeepIdChars(b)
  {
    if a == [] {
      assert a + b == b;
    } else {
      assert (a + b)[1..] == a[1..] + b;
      KeepIdCharsAppend(a[1..], b);
    }
  }

  /** Two words joined by a space lose the space, as in the "All Files" table. */
  lemma TitleIdOfTwoWords(w1: string, w2: string)
    requires w1 != [] && IsLetter(w1[0])
    requires forall i :: 0 <= i < |w1| ==> IsIdChar(w1[i])
    requires forall i :: 0 <= i < |w2| ==> IsIdChar(w2[i])
    ensures TitleId(w1 + " " + w2) == w1 + w2
  {
    var s := w1 + " " + w2;
    assert StripLineStartNonLetters(s, true) == s by {
      assert forall i :: 0 <= i < |s[1..]| ==> s[1..][i] != '\n' by {
        forall i | 0 <= i < |s[1..]| ensures s[1..][i] != '\n' {
          if i + 1 < |w1| {
            assert IsIdChar(w1[i + 1]);
          } else if i + 1 > |w1| {
            assert s[i + 1] == w2[i + 1 - |w1| - 1];
            assert IsIdChar(w2[i + 1 - |w1| - 1]);
          }
        }
      }
      StripUnarmedNoNewline(s[1..]);
      assert s == [s[0]] + s[1..];
    }
    assert s == w1 + ([' '] + w2);
    KeepIdCharsAppend(w1, [' '] + w2);
    KeepIdCharsOfIdChars(w1);
    assert ([' '] + w2)[1..] == w2;
    KeepIdCharsOfIdChars(w2);
  }

  lemma TitleIdExample()
    ensures TitleId("All Files") == "AllFiles"
  {
    assert "All Files" == "All" + " " + "Files";
    TitleIdOfTwoWords("All", "Files");
  }

  // ---------------------------------------------------------------------------
  // shortened_filename: filename.sub(root, ".").gsub(/^\.\//, "")
  // ---------------------------------------------------------------------------

  /** `gsub(/^\.\//, "")`: every "./" standing at a line start is deleted. */
  function DropLineStartDotSlash(s: string, lineStart: bool): (r: string)
    ensures |r| <= |s|
  {
    if lineStart && |s| >= 2 && s[0] == '.' && s[1] == '/' then DropLineStartDotSlash(s[2..], false)
    else if s == [] then []
    else [s[0]] + DropLineStartDotSlash(s[1..], s[0] == '\n')
  }

  /** The file name shown in the report: the first occurrence of the project root is
      replaced by ".", then a "./" at a line start is dropped. */
  function ShortenedFilename(filename: string, root: string): string {
    DropLineStartDotSlash(Sub(filename, root, "."), true)
  }

  lemma {:induction false} DropUnarmedNoNewline(s: string)
    requires forall i :: 0 <= i < |s| ==> s[i] != '\n'
    ensures DropLineStartDotSlash(s, false) == s
  {
    if s != [] {
      DropUnarmedNoNewline(s[1..]);
      assert s == [s[0]] + s[1..];
    }
  }

  /** On one line, at most one leading "./" is dropped, and nothing else changes. */
  lemma DropOneLeadingDotSlash(s: string)
    requires forall i :: 0 <= i < |s| ==> s[i] != '\n'
    ensures DropLineStartDotSlash(s, true) == if "./" <= s then s[2..] else s
  {
    if "./" <= s {
      DropUnarmedNoNewline(s[2..]);
    } else if s != [] {
      DropUnarmedNoNewline(s[1..]);
      assert s == [s[0]] + s[1..];
    }
  }

  /** A file under the root is shown relative to it. */
  lemma ShortenedUnderRoot(root: string, rest: string)
    requires forall i :: 0 <= i < |rest| ==> rest[i] != '\n'
    ensures ShortenedFilename(root + "/" + rest, root) == rest
  {
    var f := root + "/" + rest;
    assert OccursAt(f, root, 0);
    SubReplacesFirst(f, root, ".", 0);
    assert Sub(f, root, ".") == "./" + rest by {
      assert f[|root|..] == "/" + rest;
      assert f[..0] == "";
    }
    assert ("./" + rest)[2..] == rest;
    DropOneLeadingDotSlash("./" + rest);
  }

  /** A file name without the root keeps its name, less one leading "./". */
  lemma ShortenedWithoutRoot(filename: string, root: string)
    requires forall j: nat :: !OccursAt(filename, root, j)
    requires forall i :: 0 <= i < |filename| ==> filename[i] != '\n'
    ensures ShortenedFilename(filename, root) ==
      if "./" <= filename then filename[2..] else filename
  {
    SubAbsent(filename, root, ".");
    DropOneLeadingDotSlash(filename);
  }

  /** Only the first occurrence of the root is replaced, and it need not be a prefix. */
  lemma ShortenedReplacesFirstOccurrence(filename: string, root: string, i: nat)
    requires OccursAt(filename, root, i)
    requires forall j: nat :: j < i ==> !OccursAt(filename, root, j)
    ensures ShortenedFilename(filename, root) ==
      DropLineStartDotSlash(filename[..i] + "." + filename[i + |root|..], true)
  {
    SubReplacesFirst(filename, root, ".", i);
  }

  // ---------------------------------------------------------------------------
  // assets_path, id, link_to_source_file
  // ---------------------------------------------------------------------------

  /** assets_path(name): File.join("./assets", VERSION, name), which whatever the
      version and the name stays under "./assets/". */
  function AssetsPath(version: string, name: string): (r: string)
    ensures "./assets/" <= r
  {
    var inner := Join("./assets", version);
    JoinUnder("./assets", version);
    assert TrimTrailingSlashes("./assets") == "./assets";
    JoinUnder(inner, name);
    PrefixSurvivesTrim("./assets", inner);
    Join3("./assets", version, name)
  }

  /** For a version without separators at its ends and a relative name, the asset
      path is "./assets/<version>/<name>". */
  lemma AssetsPathLayout(version: string, name: string)
    requires version != [] && version[0] != '/' && version[|version| - 1] != '/'
    requires name == [] || name[0] != '/'
    ensures AssetsPath(version, name) == "./assets/" + version + "/" + name
  {
    JoinPlain("./assets", version);
    JoinPlain("./assets" + "/" + version, name);
  }

  /** id(source_file): a digest of the file name and of nothing else. */
  function Id(file: SourceFile, digest: string -> string): string {
    digest(file.filename)
  }

  /** Two files with the same name get the same id. */
  lemma IdDependsOnlyOnFilename(f: SourceFile, g: SourceFile, digest: string -> string)
    requires f.filename == g.filename
    ensures Id(f, digest) == Id(g, digest)
  {
  }

  const HrefOpen: string := "<a href=\""
  const ClassAttr: string := " class=\""
  const TitleAttr: string := " title=\""
  const AnchorClose: string := "</a>"

  /** link_to_source_file: an anchor to the file's id, titled and labelled with
      its shortened name. Nothing in it is HTML-escaped. */
  function LinkToSourceFile(file: SourceFile, root: string, digest: string -> string): string {
    var name := ShortenedFilename(file.filename, root);
    RenderAnchor(Anchor("#" + Id(file, digest), "src_link", name, name))
  }

  /** The parts of an anchor element `<a href="…" class="…" title="…">…</a>`. */
  datatype Anchor = Anchor(href: string, cssClass: string, title: string, text: string)

  /** The text before the first '"' of `s` and what follows that quote. */
  function TakeUntilQuote(s: string): (r: Option<(string, string)>)
    ensures r.Some? ==> '"' !in r.value.0 && s == r.value.0 + "\"" + r.value.1
    ensures r.None? ==> '"' !in s
  {
    if s == [] then None
    else if s[0] == '"' then Some(([], s[1..]))
    else match TakeUntilQuote(s[1..])
      case None => None
      case Some((v, rest)) => Some(([s[0]] + v, rest))
  }

  lemma {:induction false} TakeUntilQuoteOf(v: string, rest: string)
    requires '"' !in v
    ensures TakeUntilQuote(v + "\"" + rest) == Some((v, rest))
  {
    if v == [] {
      assert v + "\"" + rest == ['"'] + rest;
    } else {
      assert (v + "\"" + rest)[1..] == v[1..] + "\"" + rest;
      TakeUntilQuoteOf(v[1..], rest);
      assert [v[0]] + v[1..] == v;
    }
  }

  /** Reads an anchor of the shape `<a href="…" class="…" title="…">…</a>`. */
  function ParseAnchor(s: string): Option<Anchor> {
    if !(HrefOpen <= s) then None
    else match TakeUntilQuote(s[|HrefOpen|..])
    case None => None
    case Some((href, s1)) =>
      if !(ClassAttr <= s1) then None
      else match TakeUntilQuote(s1[|ClassAttr|..])
      case None => None
      case Some((cls, s2)) =>
        if !(TitleAttr <= s2) then None
        else match TakeUntilQuote(s2[|TitleAttr|..])
        case None => None
        case Some((title, s3)) =>
          if |s3| >= 1 + |AnchorClose| && s3[0] == '>' && s3[|s3| - |AnchorClose|..] == AnchorClose
          then Some(Anchor(href, cls, title, s3[1..|s3| - |AnchorClose|]))
          else None
  }

  /** `<a href="HREF" class="CLASS" title="TITLE">TEXT</a>`, the layout
      link_to_source_file writes. */
  function RenderAnchor(a: Anchor): string {
    HrefOpen + (a.href + "\"" + (ClassAttr + (a.cssClass + "\"" + (TitleAttr + (a.title + "\"" + (">" + a.text + AnchorClose))))))
  }

  /** Reading back a written anchor gives its parts, provided no attribute holds a '"'. */
  lemma ParseRenderAnchor(a: Anchor)
    requires '"' !in a.href && '"' !in a.cssClass && '"' !in a.title
    ensures ParseAnchor(RenderAnchor(a)) == Some(a)
  {
    var s3 := ">" + a.text + AnchorClose;
    var s2 := TitleAttr + (a.title + "\"" + s3);
    var s1 := ClassAttr + (a.cssClass + "\"" + s2);
    var s := RenderAnchor(a);
    assert s[|HrefOpen|..] == a.href + "\"" + s1;
    TakeUntilQuoteOf(a.href, s1);
    assert s1[|ClassAttr|..] == a.cssClass + "\"" + s2;
    TakeUntilQuoteOf(a.cssClass, s2);
    assert s2[|TitleAttr|..] == a.title + "\"" + s3;
    TakeUntilQuoteOf(a.title, s3);
    assert s3[1..|s3| - |AnchorClose|] == a.text;
    assert s3[|s3| - |AnchorClose|..] == AnchorClose;
  }

  /** As long as the id and the shortened name hold no '"', the link reads back as an
      anchor whose href is "#" followed by the file's id, whose class is src_link and
      whose title and text are both the shortened file name. */
  lemma LinkToSourceFileReadsBack(file: SourceFile, root: string, digest: string -> string)
    requires '"' !in Id(file, digest)
    requires '"' !in ShortenedFilename(file.filename, root)
    ensures ParseAnchor(LinkToSourceFile(file, root, digest)) ==
      Some(Anchor("#" + Id(file, digest), "src_link",
                  ShortenedFilename(file.filename, root), ShortenedFilename(file.filename, root)))
  {
    var name := ShortenedFilename(file.filename, root);
    ParseRenderAnchor(Anchor("#" + Id(file, digest), "src_link", name, name));
  }
}
