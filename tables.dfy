/** The fixed size list and file-name table of the generator. */
module Tables {
  import opened Types

  /** The six sizes, in the order icons are generated. */
  const FaviconSizes: seq<FaviconSize> := [16, 32, 48, 180, 192, 512]

  /** The file name of each size. */
  const FaviconFilenames: map<FaviconSize, string> := map[
    16 := "favicon-16x16.png",
    32 := "favicon-32x32.png",
    48 := "favicon-48x48.png",
    180 := "apple-touch-icon.png",
    192 := "android-chrome-192x192.png",
    512 := "android-chrome-512x512.png"
  ]

  const IcoFilename: string := "favicon" + ".ico"
  const SnippetFilename: string := "head-" + "snippet" + ".html"

  /** The table is total on the size type, so a lookup never fails. */
  function Filename(s: FaviconSize): (name: string)
    ensures name in FaviconFilenames.Values
    ensures name != IcoFilename && name != SnippetFilename
  {
    assert IcoFilename == "favicon.ico" && SnippetFilename == "head-snippet.html";
    FaviconFilenames[s]
  }

  /** Every size occurs exactly once in the size list, in increasing order. */
  lemma SizesAreTheSizeType()
    ensures |FaviconSizes| == 6
    ensures forall s: FaviconSize :: s in FaviconSizes
    ensures forall i, j :: 0 <= i < j < |FaviconSizes| ==> FaviconSizes[i] < FaviconSizes[j]
  {
  }

  /** Different sizes have different file names, so the six icons never overwrite one another. */
  lemma FilenamesInjective(a: FaviconSize, b: FaviconSize)
    requires a != b
    ensures Filename(a) != Filename(b)
  {
  }
}
