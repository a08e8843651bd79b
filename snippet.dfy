/**
 * The fixed texts shipped with the icons: the `<head>` snippet that links
 * them, and the installation instructions, both constants that must agree
 * with the file-name table.
 */
module Snippet {
  import opened Wrappers
  import opened Types
  import opened Tables

  /** The lines of s, split at every c; as in JavaScript, the empty string splits into one empty line. */
  function Split(s: string, c: char): (lines: seq<string>)
    ensures |lines| >= 1
  {
    if s == [] then [""]
    else if s[0] == c then [""] + Split(s[1..], c)
    else
      var rest := Split(s[1..], c);
      [[s[0]] + rest[0]] + rest[1..]
  }

  /** The lines joined by sep, as JavaScript's `join`. */
  function Join(lines: seq<string>, sep: string): string {
    if |lines| == 0 then ""
    else if |lines| == 1 then lines[0]
    else lines[0] + sep + Join(lines[1..], sep)
  }

  /** Every c in s replaced by sep. */
  function Replace(s: string, c: char, sep: string): string {
    if s == [] then []
    else (if s[0] == c then sep else [s[0]]) + Replace(s[1..], c, sep)
  }

  /** Prefixing a character to the first line prefixes it to the joined text. */
  lemma JoinConsFirst(x: char, lines: seq<string>, sep: string)
    requires |lines| >= 1
    ensures Join([[x] + lines[0]] + lines[1..], sep) == [x] + Join(lines, sep)
  {
    var l := [[x] + lines[0]] + lines[1..];
    assert l[1..] == lines[1..];
  }

  /** Splitting at c and joining with sep replaces every c by sep: JavaScript's `split(c).join(sep)`. */
  lemma {:induction false} SplitThenJoin(s: string, c: char, sep: string)
    ensures Join(Split(s, c), sep) == Replace(s, c, sep)
  {
    if s != [] {
      SplitThenJoin(s[1..], c, sep);
      var rest := Split(s[1..], c);
      if s[0] == c {
        assert ([""] + rest)[1..] == rest;
      } else {
        JoinConsFirst(s[0], rest, sep);
      }
    }
  }

  /** A text without c splits into itself alone. */
  lemma {:induction false} SplitNoSeparator(a: string, c: char)
    requires c !in a
    ensures Split(a, c) == [a]
  {
    if a != [] {
      SplitNoSeparator(a[1..], c);
      assert [a[0]] + a[1..] == a;
    }
  }

  /** Splitting a first line without c, then c, then b: that line, then the lines of b. */
  lemma {:induction false} SplitAfterLine(a: string, b: string, c: char)
    requires c !in a
    ensures Split(a + [c] + b, c) == [a] + Split(b, c)
  {
    var s := a + [c] + b;
    if a == [] {
      assert s[1..] == b;
    } else {
      assert s[0] == a[0];
      assert s[1..] == a[1..] + [c] + b;
      SplitAfterLine(a[1..], b, c);
      assert [a[0]] + a[1..] == a;
    }
  }

  /** Joining lines free of c with c and splitting at c gives the lines back. */
  lemma {:induction false} SplitJoinRoundTrip(lines: seq<string>, c: char)
    requires |lines| >= 1
    requires forall i :: 0 <= i < |lines| ==> c !in lines[i]
    ensures Split(Join(lines, [c]), c) == lines
  {
    if |lines| == 1 {
      SplitNoSeparator(lines[0], c);
    } else {
      SplitAfterLine(lines[0], Join(lines[1..], [c]), c);
      SplitJoinRoundTrip(lines[1..], c);
      assert [lines[0]] + lines[1..] == lines;
    }
  }

  /** The attributes of one `<link>` tag, in the order they are written. */
  datatype LinkTag = LinkTag(rel: string, mime: Option<string>, sizes: Option<string>, path: string)

  /** The tag as written in the snippet; every href is the path under the site root. */
  function RenderTag(t: LinkTag): string {
    "<link rel=\"" + t.rel + "\""
      + (if t.mime.Some? then " type=\"" + t.mime.value + "\"" else "")
      + (if t.sizes.Some? then " sizes=\"" + t.sizes.value + "\"" else "")
      + " href=\"/" + t.path + "\">"
  }

  /** The tags of the `<head>` snippet, one per line. */
  function HeadLinks(): seq<LinkTag> {
    [ LinkTag("icon", Some("image/png"), Some("16x16"), "favicon-16x16.png"),
      LinkTag("icon", Some("image/png"), Some("32x32"), "favicon-32x32.png"),
      LinkTag("icon", Some("image/png"), Some("48x48"), "favicon-48x48.png"),
      LinkTag("apple-touch-icon", None, Some("180x180"), "apple-touch-icon.png"),
      LinkTag("icon", Some("image/png"), Some("192x192"), "android-chrome-192x192.png"),
      LinkTag("icon", Some("image/png"), Some("512x512"), "android-chrome-512x512.png"),
      LinkTag("icon", None, None, "favicon.ico") ]
  }

  /** The rendered tags, in order. */
  function HeadLines(): seq<string> {
    seq(|HeadLinks()|, i requires 0 <= i < |HeadLinks()| => RenderTag(HeadLinks()[i]))
  }

  /** The `<head>` snippet: the seven tags, one per line; a constant. */
  function HeadSnippet(): string {
    Join(HeadLines(), "\n")
  }

  /** A tag whose attributes have no line break renders on one line. */
  lemma TagIsOneLine(t: LinkTag)
    requires '\n' !in t.rel && '\n' !in t.path
    requires t.mime.Some? ==> '\n' !in t.mime.value
    requires t.sizes.Some? ==> '\n' !in t.sizes.value
    ensures '\n' !in RenderTag(t)
  {
  }

  /** None of the attribute values but the paths has a line break. */
  lemma TagPiecesAreOneLine()
    ensures '\n' !in "icon" && '\n' !in "apple-touch-icon" && '\n' !in "image/png"
    ensures '\n' !in "16x16" && '\n' !in "32x32" && '\n' !in "48x48"
    ensures '\n' !in "180x180" && '\n' !in "192x192" && '\n' !in "512x512"
  {
  }

  /** None of the paths the tags link has a line break. */
  lemma TagPathsAreOneLine()
    ensures '\n' !in "favicon-16x16.png" && '\n' !in "favicon-32x32.png" && '\n' !in "favicon-48x48.png"
    ensures '\n' !in "apple-touch-icon.png" && '\n' !in "android-chrome-192x192.png"
    ensures '\n' !in "android-chrome-512x512.png" && '\n' !in "favicon.ico"
  {
  }

  /** The snippet splits into seven lines, line i the rendering of the i-th tag. */
  lemma HeadSnippetLines()
    ensures |Split(HeadSnippet(), '\n')| == 7
    ensures forall i :: 0 <= i < 7 ==> Split(HeadSnippet(), '\n')[i] == RenderTag(HeadLinks()[i])
  {
    TagPiecesAreOneLine();
    TagPathsAreOneLine();
    forall i | 0 <= i < |HeadLinks()|
      ensures '\n' !in HeadLines()[i]
    {
      TagIsOneLine(HeadLinks()[i]);
    }
    SplitJoinRoundTrip(HeadLines(), '\n');
  }

  /** One line of the list of included files: the file, and the path it is served at. */
  datatype FileEntry = FileEntry(name: string, gap: string, note: string)

  function RenderEntry(e: FileEntry): string {
    "\U{2022} " + e.name + e.gap + "\U{2192} /" + e.name + " (" + e.note + ")"
  }

  /** The included files, in the order the instructions list them. */
  function IncludedFiles(): seq<FileEntry> {
    [ FileEntry("favicon-16x16.png", "   ", "classic small tab icon"),
      FileEntry("favicon-32x32.png", "   ", "standard tab icon"),
      FileEntry("favicon-48x48.png", "   ", "legacy / some platforms"),
      FileEntry("apple-touch-icon.png", " ", "iOS home screen"),
      FileEntry("android-chrome-192x192.png", " ", "PWA icon medium"),
      FileEntry("android-chrome-512x512.png", " ", "PWA icon large"),
      FileEntry("favicon.ico", " ", "fallback for older browsers") ]
  }

  /** The rendered entries, in order. */
  function RenderEntries(es: seq<FileEntry>): (lines: seq<string>)
    ensures |lines| == |es|
    ensures forall i :: 0 <= i < |es| ==> lines[i] == RenderEntry(es[i])
  {
    if es == [] then [] else [RenderEntry(es[0])] + RenderEntries(es[1..])
  }

  /** The steps printed above the list of files; long lines are written in pieces. */
  function InstructionSteps(): seq<string> {
    [ "Instructions:",
      "1. Upload all generated " + "PNG files + favicon.ico " + "to your site's public " + "root (or adjust paths).",
      "2. Copy the HTML code " + "above into the <head> " + "of every page.",
      "3. Optional: Add a web " + "app manifest if you " + "need PWA features.",
      "",
      "Included files:" ]
  }

  /** The lines of the installation instructions. */
  function InstructionLines(): seq<string> {
    InstructionSteps() + RenderEntries(IncludedFiles())
  }

  /** The instructions: a constant. */
  function Instructions(): string {
    Join(InstructionLines(), "\n")
  }

  /** The decimal digits of n. */
  function NatToString(n: nat): (s: string)
    ensures |s| >= 1
  {
    if n < 10 then ['0' + n as char] else NatToString(n / 10) + ['0' + (n % 10) as char]
  }

  /** The sizes attribute of a size: "NxN". */
  function Dim(s: FaviconSize): string {
    NatToString(s) + "x" + NatToString(s)
  }

  /** The decimal forms of the two-digit sizes. */
  lemma ShortDimValues()
    ensures Dim(16) == "16x16" && Dim(32) == "32x32" && Dim(48) == "48x48"
  {
  }

  /** The decimal forms of the three-digit sizes. */
  lemma LongDimValues()
    ensures Dim(180) == "180x180" && Dim(192) == "192x192" && Dim(512) == "512x512"
  {
    assert NatToString(180) == "180" by { assert NatToString(18) == "18"; }
    assert NatToString(192) == "192" by { assert NatToString(19) == "19"; }
    assert NatToString(512) == "512" by { assert NatToString(51) == "51"; }
  }

  /** The six size tags are in size order and each links its size's table file name under the root. */
  lemma HrefsAgreeWithTable(i: int)
    requires 0 <= i < 6
    ensures HeadLinks()[i].path == Filename(FaviconSizes[i])
  {
  }

  /**
   * Each size tag declares the "NxN" of its size, and the PNG type is written
   * on every one of them but the touch icon.
   */
  lemma SizesAgreeWithTable(i: int)
    requires 0 <= i < 6
    ensures HeadLinks()[i].sizes == Some(Dim(FaviconSizes[i]))
    ensures HeadLinks()[i].mime.None? <==> FaviconSizes[i] == 180
  {
    ShortDimValues();
    LongDimValues();
  }

  /** The snippet has seven tags and the last links `favicon.ico`. */
  lemma SnippetEndsWithIco()
    ensures |HeadLinks()| == 7
    ensures HeadLinks()[6] == LinkTag("icon", None, None, IcoFilename)
  {
  }

  /** Only the 180-pixel tag is an Apple touch icon. */
  lemma OnlyTouchIconIs180(i: int)
    requires 0 <= i < 6
    ensures HeadLinks()[i].rel == "apple-touch-icon" <==> FaviconSizes[i] == 180
    ensures HeadLinks()[i].rel != "apple-touch-icon" ==> HeadLinks()[i].rel == "icon"
  {
  }

  /** The instructions list every output file: the six PNGs in table order, then `favicon.ico`. */
  lemma InstructionsListEveryFile()
    ensures |IncludedFiles()| == 7
    ensures forall i :: 0 <= i < 6 ==> IncludedFiles()[i].name == Filename(FaviconSizes[i])
    ensures IncludedFiles()[6].name == IcoFilename
  {
  }
}
