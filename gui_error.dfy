/**
  The GUI's error enum and the text its `Debug` implementation writes for
  each variant (src/gui/mod.rs). The wgpu errors carried by
  `SurfaceCreation` and `DeviceRequest` are foreign types the rendering
  never looks at, so they are type parameters here; a path and a texture
  id are represented by the text their `Display` and `Debug`
  implementations produce, which this model takes as given.
 */
module GuiError {
  import opened Wrappers
  import opened Text

  datatype Error<SurfaceError, DeviceError> =
    | WindowCreation
    | SurfaceCreation(surfaceError: SurfaceError)
    | AdapterRequest
    | DeviceRequest(deviceError: DeviceError)
    | InvalidTextureId(idDebug: string)
    | PngDecode
    | PngFormat
    | NotFound(pathDisplay: string)
    | Exit

  /** The same variant with the wgpu payloads dropped. */
  type Shape = Error<(), ()>

  const WINDOW_CREATION: string := "Failed to create a window."
  const SURFACE_CREATION: string := "Failed to create a surface."
  // The longer sentences are written in pieces: the verifier only sees the
  // characters of a short string literal.
  const ADAPTER_REQUEST: string := "Failed to find a adapter " + "that supports our surface."
  const DEVICE_REQUEST: string := "Failed to find a device " + "that meets our adapter's limits."
  const PNG_DECODE: string := "Invalid data given to the png decoder."
  const PNG_FORMAT: string := "Unsupported texture format " + "produced by the png decoder."
  const TEXTURE_PREFIX: string := "Egui texture id '"
  const TEXTURE_SUFFIX: string := "' was invalid."
  const NOT_FOUND_PREFIX: string := "Failed to find path: '"
  const NOT_FOUND_SUFFIX: string := "'"

  /** The message written for an error; only `Exit` writes nothing. */
  function Render<S, D>(e: Error<S, D>): (r: string)
    ensures r == [] <==> e.Exit?
  {
    match e
    case WindowCreation => WINDOW_CREATION
    case SurfaceCreation(_) => SURFACE_CREATION
    case AdapterRequest => ADAPTER_REQUEST
    case DeviceRequest(_) => DEVICE_REQUEST
    case InvalidTextureId(idDebug) => TEXTURE_PREFIX + idDebug + TEXTURE_SUFFIX
    case PngDecode => PNG_DECODE
    case PngFormat => PNG_FORMAT
    case NotFound(pathDisplay) => NOT_FOUND_PREFIX + pathDisplay + NOT_FOUND_SUFFIX
    case Exit => []
  }

  function ShapeOf<S, D>(e: Error<S, D>): Shape {
    match e
    case WindowCreation => WindowCreation
    case SurfaceCreation(_) => SurfaceCreation(())
    case AdapterRequest => AdapterRequest
    case DeviceRequest(_) => DeviceRequest(())
    case InvalidTextureId(idDebug) => InvalidTextureId(idDebug)
    case PngDecode => PngDecode
    case PngFormat => PngFormat
    case NotFound(pathDisplay) => NotFound(pathDisplay)
    case Exit => Exit
  }

  /** The text between a fixed prefix and a fixed suffix, if `s` is so enclosed. */
  function Enclosed(s: string, prefix: string, suffix: string): (r: Option<string>)
    ensures r.Some? ==> s == prefix + r.value + suffix
  {
    match StripPrefix(s, prefix)
    case None => None
    case Some(rest) => StripSuffix(rest, suffix)
  }

  /** Reads a message back as the variant that wrote it, with its path or texture id. */
  function Decode(s: string): (r: Option<Shape>)
    ensures r.Some? ==> Render(r.value) == s
  {
    if s == [] then Some(Exit)
    else if s == WINDOW_CREATION then Some(WindowCreation)
    else if s == SURFACE_CREATION then Some(SurfaceCreation(()))
    else if s == ADAPTER_REQUEST then Some(AdapterRequest)
    else if s == DEVICE_REQUEST then Some(DeviceRequest(()))
    else if s == PNG_DECODE then Some(PngDecode)
    else if s == PNG_FORMAT then Some(PngFormat)
    else match Enclosed(s, NOT_FOUND_PREFIX, NOT_FOUND_SUFFIX)
      case Some(pathDisplay) => Some(NotFound(pathDisplay))
      case None =>
        match Enclosed(s, TEXTURE_PREFIX, TEXTURE_SUFFIX)
        case Some(idDebug) => Some(InvalidTextureId(idDebug))
        case None => None
  }

  lemma EnclosedOfConcat(prefix: string, middle: string, suffix: string)
    ensures Enclosed(prefix + middle + suffix, prefix, suffix) == Some(middle)
  {
    assert prefix + middle + suffix == prefix + (middle + suffix);
    StripPrefixOfConcat(prefix, middle + suffix);
    StripSuffixOfConcat(middle, suffix);
  }

  /** Every message decodes to the variant that wrote it, payloads other than wgpu's included. */
  lemma DecodeRender<S, D>(e: Error<S, D>)
    ensures Decode(Render(e)) == Some(ShapeOf(e))
  {
    match e
    case NotFound(pathDisplay) => DecodeNotFound(pathDisplay);
    case InvalidTextureId(idDebug) => DecodeInvalidTextureId(idDebug);
    case _ =>
  }

  lemma DecodeNotFound(pathDisplay: string)
    ensures Decode(NOT_FOUND_PREFIX + pathDisplay + NOT_FOUND_SUFFIX) == Some(NotFound(pathDisplay))
  {
    var s := NOT_FOUND_PREFIX + pathDisplay + NOT_FOUND_SUFFIX;
    assert s[0] == 'F' && s[10] == 'f' && s[15] == 'p';
    assert s != WINDOW_CREATION && s != SURFACE_CREATION by { assert WINDOW_CREATION[10] == SURFACE_CREATION[10] == 'c'; }
    assert s != ADAPTER_REQUEST && s != DEVICE_REQUEST by { assert ADAPTER_REQUEST[15] == DEVICE_REQUEST[15] == 'a'; }
    assert s != PNG_DECODE && s != PNG_FORMAT by { assert PNG_DECODE[0] == 'I' && PNG_FORMAT[0] == 'U'; }
    EnclosedOfConcat(NOT_FOUND_PREFIX, pathDisplay, NOT_FOUND_SUFFIX);
  }

  lemma DecodeInvalidTextureId(idDebug: string)
    ensures Decode(TEXTURE_PREFIX + idDebug + TEXTURE_SUFFIX) == Some(InvalidTextureId(idDebug))
  {
    var s := TEXTURE_PREFIX + idDebug + TEXTURE_SUFFIX;
    assert s[0] == 'E';
    assert s != WINDOW_CREATION && s != SURFACE_CREATION && s != ADAPTER_REQUEST && s != DEVICE_REQUEST by {
      assert WINDOW_CREATION[0] == SURFACE_CREATION[0] == ADAPTER_REQUEST[0] == DEVICE_REQUEST[0] == 'F';
    }
    assert s != PNG_DECODE && s != PNG_FORMAT by { assert PNG_DECODE[0] == 'I' && PNG_FORMAT[0] == 'U'; }
    assert StripPrefix(s, NOT_FOUND_PREFIX).None? by { assert NOT_FOUND_PREFIX[0] == 'F'; }
    EnclosedOfConcat(TEXTURE_PREFIX, idDebug, TEXTURE_SUFFIX);
  }

  /**
    The message determines the variant and its path or texture id: no two
    variants share a message, and different paths or ids render differently.
   */
  lemma RenderDeterminesShape<S, D>(e1: Error<S, D>, e2: Error<S, D>)
    ensures Render(e1) == Render(e2) ==> ShapeOf(e1) == ShapeOf(e2)
  {
    DecodeRender(e1);
    DecodeRender(e2);
  }

  /** The wgpu error is ignored: the message depends on the variant alone. */
  lemma PayloadIgnored<S, D>(s1: S, s2: S, d1: D, d2: D)
    ensures Render<S, D>(SurfaceCreation(s1)) == Render<S, D>(SurfaceCreation(s2))
    ensures Render<S, D>(DeviceRequest(d1)) == Render<S, D>(DeviceRequest(d2))
  {
  }

  /** The path is written between single quotes, unchanged. */
  lemma NotFoundQuotesPath<S, D>(pathDisplay: string)
    ensures var r := Render<S, D>(NotFound(pathDisplay));
      |r| == |NOT_FOUND_PREFIX| + |pathDisplay| + 1 &&
      r[|NOT_FOUND_PREFIX| - 1] == '\'' && r[|r| - 1] == '\'' &&
      r[|NOT_FOUND_PREFIX|..|r| - 1] == pathDisplay
  {
  }

  /** The texture id's debug text is written between single quotes, unchanged. */
  lemma TextureIdQuoted<S, D>(idDebug: string)
    ensures var r := Render<S, D>(InvalidTextureId(idDebug));
      |r| == |TEXTURE_PREFIX| + |idDebug| + |TEXTURE_SUFFIX| &&
      r[|TEXTURE_PREFIX| - 1] == '\'' && r[|TEXTURE_PREFIX| + |idDebug|] == '\'' &&
      r[|TEXTURE_PREFIX|..|TEXTURE_PREFIX| + |idDebug|] == idDebug
  {
  }
}
