/**
 * The archive's entries before compression: each icon under its file name,
 * `favicon.ico` as a byte copy of the first 32-pixel icon, and the
 * `<head>` snippet with the instructions appended as a comment.
 */
module Archive {
  import opened Wrappers
  import opened Types
  import opened Tables
  import opened Snippet

  /** The archive's entries: file name to contents. */
  type Files = map<string, Bytes>

  /** The prefix of the compression library's error, as reported by the archive builder. */
  const ZipErrorPrefix: string := "Failed to " + "create ZIP: "

  /** The archive builder's one failure: the compressor rejected the entries, with its message. */
  datatype ArchiveError = ZipFailed(cause: string)

  /** The message the archive builder throws: the compressor's message behind the prefix. */
  function ArchiveMessage(e: ArchiveError): (m: string)
    ensures ZipErrorPrefix <= m && m[|ZipErrorPrefix|..] == e.cause
  {
    ZipErrorPrefix + e.cause
  }

  /** The snippet file: the tags, a blank line, and the instructions as a comment, each continuation line indented by three spaces. */
  function FullSnippet(): string {
    HeadSnippet() + "\n\n<!-- " + Join(Split(Instructions(), '\n'), "\n   ") + " -->"
  }

  /** The icon entries: each icon under its file name, a later icon of the same name replacing an earlier one. */
  function IconEntries(icons: seq<Icon>): Files {
    if icons == [] then map[]
    else
      var last := icons[|icons| - 1];
      IconEntries(icons[..|icons| - 1])[last.filename := last.bytes]
  }

  /** The first icon of the given size, if any. */
  function FirstWithSize(icons: seq<Icon>, size: int): (r: Option<Icon>)
    ensures r.None? <==> forall i :: 0 <= i < |icons| ==> icons[i].size != size
    ensures r.Some? ==> exists i :: 0 <= i < |icons| && icons[i] == r.value && r.value.size == size
                                    && forall k :: 0 <= k < i ==> icons[k].size != size
  {
    if icons == [] then None
    else if icons[0].size == size then Some(icons[0])
    else
      var r := FirstWithSize(icons[1..], size);
      assert r.Some? ==> exists i :: 1 <= i < |icons| && icons[i] == r.value
                                     && forall k :: 0 <= k < i ==> icons[k].size != size by {
        if r.Some? {
          var j :| 0 <= j < |icons[1..]| && icons[1..][j] == r.value && r.value.size == size
                   && forall k :: 0 <= k < j ==> icons[1..][k].size != size;
          assert icons[j + 1] == r.value;
          assert forall k :: 0 <= k < j + 1 ==> icons[k].size != size by {
            forall k | 0 <= k < j + 1 ensures icons[k].size != size {
              if k > 0 { assert icons[k] == icons[1..][k - 1]; }
            }
          }
        }
      }
      r
  }

  /** The whole entry map for a list of icons and the encoded snippet. */
  function ArchiveOf(icons: seq<Icon>, snippetBytes: Bytes): Files {
    var files := IconEntries(icons);
    var withIco := if FirstWithSize(icons, 32).Some? then files[IcoFilename := FirstWithSize(icons, 32).value.bytes] else files;
    withIco[SnippetFilename := snippetBytes]
  }

  /** Each icon's bytes under its file name, in list order. */
  method AddIcons(icons: seq<Icon>) returns (files: Files)
    ensures files == IconEntries(icons)
  {
    files := map[];
    var i := 0;
    while i < |icons|
      invariant 0 <= i <= |icons|
      invariant files == IconEntries(icons[..i])
    {
      assert icons[..i + 1][..i] == icons[..i];
      files := files[icons[i].filename := icons[i].bytes];
      i := i + 1;
    }
    assert icons[..|icons|] == icons;
  }

  /** The entry map for the icons and the already encoded snippet. */
  method PackEntries(icons: seq<Icon>, snippetBytes: Bytes) returns (files: Files)
    ensures files == ArchiveOf(icons, snippetBytes)
  {
    files := AddIcons(icons);
    var favicon32 := FirstWithSize(icons, 32);
    if favicon32.Some? {
      files := files[IcoFilename := favicon32.value.bytes];
    }
    files := files[SnippetFilename := snippetBytes];
  }

  /**
   * Builds the entry map, then compresses it. The text encoder and the
   * compressor are passed in; a compressor failure is reported with its
   * message behind the archive builder's prefix.
   */
  method BuildZip(icons: seq<Icon>, encodeText: string -> Bytes, zip: Files -> Result<Bytes, string>)
    returns (r: Result<Bytes, ArchiveError>, files: Files)
    ensures files == ArchiveOf(icons, encodeText(FullSnippet()))
    ensures zip(files).Success? ==> r == Success(zip(files).value)
    ensures zip(files).Failure? ==> r == Failure(ZipFailed(zip(files).error))
  {
    files := PackEntries(icons, encodeText(FullSnippet()));
    var packed := zip(files);
    if packed.Failure? {
      return Failure(ZipFailed(packed.error)), files;
    }
    r := Success(packed.value);
  }

  /** The keys of the icon entries are exactly the icons' file names. */
  lemma {:induction false} IconEntryKeys(icons: seq<Icon>)
    ensures IconEntries(icons).Keys == set i | 0 <= i < |icons| :: icons[i].filename
  {
    if icons != [] {
      var init := icons[..|icons| - 1];
      IconEntryKeys(init);
      assert forall i :: 0 <= i < |init| ==> init[i] == icons[i];
      var lhs := IconEntries(icons).Keys;
      var rhs := set i | 0 <= i < |icons| :: icons[i].filename;
      assert lhs == (set i | 0 <= i < |init| :: init[i].filename) + {icons[|icons| - 1].filename};
      forall f | f in rhs ensures f in lhs {
        var i :| 0 <= i < |icons| && icons[i].filename == f;
        if i < |init| { assert init[i].filename == f; }
      }
    }
  }

  /** An icon's entry holds its bytes unless a later icon has the same file name. */
  lemma {:induction false} LaterDuplicateWins(icons: seq<Icon>, j: int)
    requires 0 <= j < |icons|
    requires forall k :: j < k < |icons| ==> icons[k].filename != icons[j].filename
    ensures icons[j].filename in IconEntries(icons)
    ensures IconEntries(icons)[icons[j].filename] == icons[j].bytes
  {
    if j < |icons| - 1 {
      var init := icons[..|icons| - 1];
      assert init[j] == icons[j];
      LaterDuplicateWins(init, j);
    }
  }

  /**
   * The keys of the archive: every icon's file name, the snippet, and
   * `favicon.ico` exactly when some icon has size 32 (or an icon is itself
   * named so).
   */
  lemma ArchiveKeys(icons: seq<Icon>, snippetBytes: Bytes)
    ensures ArchiveOf(icons, snippetBytes).Keys
            == (set i | 0 <= i < |icons| :: icons[i].filename)
               + (if FirstWithSize(icons, 32).Some? then {IcoFilename} else {})
               + {SnippetFilename}
  {
    IconEntryKeys(icons);
    var files := IconEntries(icons);
    var first := FirstWithSize(icons, 32);
    if first.Some? {
      UpdateKeys(files, IcoFilename, first.value.bytes);
      UpdateKeys(files[IcoFilename := first.value.bytes], SnippetFilename, snippetBytes);
    } else {
      UpdateKeys(files, SnippetFilename, snippetBytes);
    }
  }

  /** Storing under a key adds that key, and only that key. */
  lemma UpdateKeys(m: Files, k: string, v: Bytes)
    ensures m[k := v].Keys == m.Keys + {k}
  {
  }

  /** `favicon.ico` is a byte copy of the first 32-pixel icon. */
  lemma IcoCopiesFirst32(icons: seq<Icon>, snippetBytes: Bytes)
    requires FirstWithSize(icons, 32).Some?
    ensures ArchiveOf(icons, snippetBytes)[IcoFilename] == FirstWithSize(icons, 32).value.bytes
  {
  }

  /** Without a 32-pixel icon there is no `favicon.ico`, unless an icon is itself named so: no failure is raised. */
  lemma NoIcoWithout32(icons: seq<Icon>, snippetBytes: Bytes)
    requires forall i :: 0 <= i < |icons| ==> icons[i].size != 32 && icons[i].filename != IcoFilename
    ensures IcoFilename !in ArchiveOf(icons, snippetBytes)
  {
    IconEntryKeys(icons);
  }

  /** The snippet entry is the encoded snippet, whatever the icons are called. */
  lemma SnippetEntry(icons: seq<Icon>, snippetBytes: Bytes)
    ensures ArchiveOf(icons, snippetBytes)[SnippetFilename] == snippetBytes
  {
  }

  /** The instructions are wrapped by indenting every line after the first by three spaces. */
  lemma SnippetWrapping()
    ensures FullSnippet() == HeadSnippet() + "\n\n<!-- " + Replace(Instructions(), '\n', "\n   ") + " -->"
  {
    SplitThenJoin(Instructions(), '\n', "\n   ");
  }

  /** Icons with pairwise distinct file names give one entry each. */
  lemma {:induction false} DistinctIconKeys(icons: seq<Icon>)
    requires forall i, j :: 0 <= i < j < |icons| ==> icons[i].filename != icons[j].filename
    ensures |IconEntries(icons).Keys| == |icons|
  {
    if icons != [] {
      var init := icons[..|icons| - 1];
      var last := icons[|icons| - 1];
      DistinctIconKeys(init);
      IconEntryKeys(init);
      assert last.filename !in IconEntries(init).Keys;
      assert IconEntries(icons).Keys == IconEntries(init).Keys + {last.filename};
    }
  }

  /**
   * With a 32-pixel icon among them and neither `favicon.ico` nor the
   * snippet's name taken by an icon, the archive holds the icon entries and
   * two more.
   */
  lemma EntryCount(icons: seq<Icon>, snippetBytes: Bytes)
    requires IcoFilename !in IconEntries(icons) && SnippetFilename !in IconEntries(icons)
    requires FirstWithSize(icons, 32).Some?
    ensures |ArchiveOf(icons, snippetBytes).Keys| == |IconEntries(icons).Keys| + 2
  {
    var keys := IconEntries(icons).Keys;
    assert ArchiveOf(icons, snippetBytes).Keys == keys + {IcoFilename} + {SnippetFilename};
    TwoMoreNames(keys);
  }

  lemma TwoMoreNames(keys: set<string>)
    requires IcoFilename !in keys && SnippetFilename !in keys
    ensures |keys + {IcoFilename} + {SnippetFilename}| == |keys| + 2
  {
    assert IcoFilename != SnippetFilename;
    assert |keys + {IcoFilename}| == |keys| + 1;
  }

  /** Each icon whose name is unique and is neither `favicon.ico` nor the snippet's name is stored as it is. */
  lemma IconStored(icons: seq<Icon>, snippetBytes: Bytes, j: int)
    requires 0 <= j < |icons|
    requires forall k :: j < k < |icons| ==> icons[k].filename != icons[j].filename
    requires icons[j].filename != IcoFilename && icons[j].filename != SnippetFilename
    ensures icons[j].filename in ArchiveOf(icons, snippetBytes)
    ensures ArchiveOf(icons, snippetBytes)[icons[j].filename] == icons[j].bytes
  {
    LaterDuplicateWins(icons, j);
  }

  /**
   * A full icon set (the six sizes in table order under their table names)
   * gives exactly eight entries: the six PNGs, `favicon.ico` copying the
   * 32-pixel icon, and the snippet.
   */
  lemma FullSetHasEightEntries(icons: seq<Icon>, snippetBytes: Bytes)
    requires |icons| == |FaviconSizes|
    requires forall i :: 0 <= i < |icons| ==> icons[i].size == FaviconSizes[i] && icons[i].filename == Filename(icons[i].size)
    ensures |ArchiveOf(icons, snippetBytes).Keys| == 8
    ensures IcoFilename in ArchiveOf(icons, snippetBytes)
    ensures ArchiveOf(icons, snippetBytes)[IcoFilename] == icons[1].bytes
  {
    assert icons[0].size == 16 && icons[1].size == 32;
    SecondIsFirst32(icons);
    FullSetNames(icons);
    DistinctIconKeys(icons);
    assert IcoFilename !in IconEntries(icons) && SnippetFilename !in IconEntries(icons) by {
      IconEntryKeys(icons);
    }
    EntryCount(icons, snippetBytes);
  }

  /** In a full icon set every PNG is stored under its table name as it was generated. */
  lemma FullSetStoresEveryIcon(icons: seq<Icon>, snippetBytes: Bytes)
    requires |icons| == |FaviconSizes|
    requires forall i :: 0 <= i < |icons| ==> icons[i].size == FaviconSizes[i] && icons[i].filename == Filename(icons[i].size)
    ensures forall i :: 0 <= i < |icons| ==> icons[i].filename in ArchiveOf(icons, snippetBytes)
                                             && ArchiveOf(icons, snippetBytes)[icons[i].filename] == icons[i].bytes
  {
    FullSetNames(icons);
    forall i | 0 <= i < |icons|
      ensures icons[i].filename in ArchiveOf(icons, snippetBytes)
      ensures ArchiveOf(icons, snippetBytes)[icons[i].filename] == icons[i].bytes
    {
      IconStored(icons, snippetBytes, i);
    }
  }

  /** The names of a full set are distinct, and none is `favicon.ico` or the snippet's name. */
  lemma FullSetNames(icons: seq<Icon>)
    requires |icons| == |FaviconSizes|
    requires forall i :: 0 <= i < |icons| ==> icons[i].size == FaviconSizes[i] && icons[i].filename == Filename(icons[i].size)
    ensures forall i, j :: 0 <= i < j < |icons| ==> icons[i].filename != icons[j].filename
    ensures forall i :: 0 <= i < |icons| ==> icons[i].filename != IcoFilename && icons[i].filename != SnippetFilename
  {
    forall i, j | 0 <= i < j < |icons| ensures icons[i].filename != icons[j].filename {
      FilenamesInjective(icons[i].size, icons[j].size);
    }
  }

  /** When the first icon is not 32 pixels and the second is, the second is the one `favicon.ico` copies. */
  lemma SecondIsFirst32(icons: seq<Icon>)
    requires |icons| >= 2 && icons[0].size != 32 && icons[1].size == 32
    ensures FirstWithSize(icons, 32) == Some(icons[1])
  {
    assert icons[1..][0] == icons[1];
  }
}
