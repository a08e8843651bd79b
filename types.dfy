/** The entities shared by the generator, the tool island, the hook and the controls panel. */
module Types {
  import opened Wrappers

  newtype byte = x: int | 0 <= x < 256
  type Bytes = seq<byte>

  /** The closed set of icon resolutions. */
  type FaviconSize = s: int | s == 16 || s == 32 || s == 48 || s == 180 || s == 192 || s == 512 witness 16

  /** A pixel dimension of a decoded image. */
  type Pixels = n: int | n >= 1 witness 1

  datatype Dims = Dims(width: Pixels, height: Pixels)

  datatype ImageKind = Png | Jpeg | Webp | Svg

  /** What the core reads of a browser `File`: its byte size and its MIME type. */
  datatype FileInfo = FileInfo(size: int, mime: string)

  /** An uploaded image: the file and its kind (the object URL is a browser handle and is left out). */
  datatype SourceImage = SourceImage(file: FileInfo, kind: ImageKind)

  /** A crop rectangle as fractions of the image's width and height; nothing constrains it until it is clamped. */
  datatype Crop = Crop(x: real, y: real, width: real, height: real)

  /** The two tabs of the tool. */
  datatype Tab = ImageTab | CustomTab

  /** The tagged generator configuration: both variants share the radius and the background. */
  datatype Config =
    | ImageMode(radiusPercent: int, backgroundColor: string, crop: Option<Crop>)
    | CustomMode(radiusPercent: int, backgroundColor: string, text: string, textColor: string)

  /** A generated icon: its size, its encoded PNG bytes and its file name. */
  datatype Icon = Icon(size: FaviconSize, bytes: Bytes, filename: string)

  /** The configuration record of the hook and the controls panel (padding, radius, background). */
  datatype PanelConfig = PanelConfig(paddingPercent: int, radiusPercent: int, backgroundColor: string)

  /** A partial update of a PanelConfig: absent fields are left as they are. */
  datatype PanelUpdate = PanelUpdate(paddingPercent: Option<int>, radiusPercent: Option<int>, backgroundColor: Option<string>)

  /** The spread `{ ...prev, ...updates }`: each supplied field replaces the old one. */
  function Merge(c: PanelConfig, u: PanelUpdate): PanelConfig {
    PanelConfig(u.paddingPercent.GetOr(c.paddingPercent),
                u.radiusPercent.GetOr(c.radiusPercent),
                u.backgroundColor.GetOr(c.backgroundColor))
  }

  /** A merge overwrites exactly the supplied fields and keeps the others. */
  lemma MergeTouchesOnlySuppliedFields(c: PanelConfig, u: PanelUpdate)
    ensures u.paddingPercent.None? ==> Merge(c, u).paddingPercent == c.paddingPercent
    ensures u.radiusPercent.None? ==> Merge(c, u).radiusPercent == c.radiusPercent
    ensures u.backgroundColor.None? ==> Merge(c, u).backgroundColor == c.backgroundColor
    ensures u.paddingPercent.Some? ==> Merge(c, u).paddingPercent == u.paddingPercent.value
    ensures u.radiusPercent.Some? ==> Merge(c, u).radiusPercent == u.radiusPercent.value
    ensures u.backgroundColor.Some? ==> Merge(c, u).backgroundColor == u.backgroundColor.value
  {
  }

  /** Applying the same update twice is applying it once, and the empty update changes nothing. */
  lemma MergeIsIdempotent(c: PanelConfig, u: PanelUpdate)
    ensures Merge(Merge(c, u), u) == Merge(c, u)
    ensures Merge(c, PanelUpdate(None, None, None)) == c
  {
  }

  /** Two updates in a row are one update in which the later supplied fields win. */
  lemma MergeComposes(c: PanelConfig, u: PanelUpdate, v: PanelUpdate)
    ensures Merge(Merge(c, u), v)
            == Merge(c, PanelUpdate(if v.paddingPercent.Some? then v.paddingPercent else u.paddingPercent,
                                    if v.radiusPercent.Some? then v.radiusPercent else u.radiusPercent,
                                    if v.backgroundColor.Some? then v.backgroundColor else u.backgroundColor))
  {
  }

  datatype Status = Idle | Ready | Generating | Error

  datatype ErrorKind = Validation | Generation | Network

  datatype ErrorMessage = ErrorMessage(kind: ErrorKind, message: string)
}
