/**
 * The metadata side of a multi-channel image product (`ImageProducts`).
 * The source keeps timestamps, the projection config, calibration and
 * wavenumbers in an untyped JSON `contents` document; here each of them is
 * a typed optional field, `None` standing for "the key is not in `contents`".
 */
module ImageProducts {
  import opened Wrappers
  import opened Json

  /** The value an IFOV field holds when it was never set. */
  const UNSET_IFOV := -1
  const DEFAULT_BIT_DEPTH := 16

  const OFFSET_KEY := "img_offset_x"
  const SWATH_KEY := "corr_swath"
  const RESOLUTION_KEY := "corr_resol"
  const ALTITUDE_KEY := "corr_altit"

  /** A 16-bit raster; its pixels are carried along but not inspected here. */
  datatype Image = Image(width: nat, height: nat, pixels: seq<bv16>)

  /** One channel of the product. An empty `timestamps` means "use the product's series". */
  datatype ImageHolder = ImageHolder(
    filename: string,
    channelName: string,
    image: Image,
    timestamps: seq<real>,
    ifovY: int,
    ifovX: int,
    offsetX: int)

  datatype CalibrationType = PolynomialType | CustomType | PolynomialPerLineType | CustomPerLineType {
    /** The enumerator's value, which is what `contents` stores under "type". */
    function Code(): (c: nat)
      ensures c < 4
    {
      match this
      case PolynomialType => 0
      case CustomType => 1
      case PolynomialPerLineType => 2
      case CustomPerLineType => 3
    }
  }

  /** The enumerator a stored "type" code stands for. */
  function TypeOfCode(code: int): (t: Option<CalibrationType>)
    ensures t.Some? <==> 0 <= code < 4
    ensures t.Some? ==> t.value.Code() == code
  {
    if code == 0 then Some(PolynomialType)
    else if code == 1 then Some(CustomType)
    else if code == 2 then Some(PolynomialPerLineType)
    else if code == 3 then Some(CustomPerLineType)
    else None
  }

  /** One channel's calibration: a tag together with exactly the payload that tag needs. */
  datatype Calibration =
    | Polynomial(coefs: seq<real>)
    | PolynomialPerLine(coefsPerLine: seq<seq<real>>)
    | Custom(equation: string)
    | CustomPerLine(equations: seq<string>)
  {
    function Type(): CalibrationType {
      match this
      case Polynomial(_) => PolynomialType
      case PolynomialPerLine(_) => PolynomialPerLineType
      case Custom(_) => CustomType
      case CustomPerLine(_) => CustomPerLineType
    }
  }

  datatype Product = Product(
    images: seq<ImageHolder>,
    hasTimestamps: bool,
    needsCorrelation: bool,
    ifovY: int,
    ifovX: int,
    bitDepth: int,
    saveAsMatrix: bool,
    timestamps: Option<seq<real>>,                  // contents["timestamps"]
    projectionCfg: Option<Json>,                    // contents["projection_cfg"]
    calibration: Option<map<nat, Calibration>>,     // contents["calibration"]
    wavenumbers: Option<map<nat, real>>)            // contents["wavenumbers"]

  /** A channel as constructed: no own timestamps, no IFOV override, no offset. */
  function NewHolder(filename: string, channelName: string, image: Image): (h: ImageHolder)
    ensures h.filename == filename && h.channelName == channelName && h.image == image
    ensures h.timestamps == [] && h.ifovY == UNSET_IFOV && h.ifovX == UNSET_IFOV && h.offsetX == 0
  {
    ImageHolder(filename, channelName, image, [], UNSET_IFOV, UNSET_IFOV, 0)
  }

  /** A product as constructed: no channels, empty `contents`, member defaults. */
  function NewProduct(): (p: Product)
    ensures p.images == [] && p.hasTimestamps && !p.needsCorrelation && p.bitDepth == DEFAULT_BIT_DEPTH
    ensures p.ifovY == UNSET_IFOV && p.ifovX == UNSET_IFOV && !p.saveAsMatrix
    ensures p.timestamps.None? && p.projectionCfg.None? && p.calibration.None? && p.wavenumbers.None?
  {
    Product([], true, false, UNSET_IFOV, UNSET_IFOV, DEFAULT_BIT_DEPTH, false, None, None, None, None)
  }

  /** `images.push_back(h)`. */
  function AddImage(p: Product, h: ImageHolder): (r: Product)
    ensures r.images == p.images + [h]
    ensures r.(images := p.images) == p
  {
    p.(images := p.images + [h])
  }

  /** Replaces channel `i`'s own timestamp series. */
  function WithChannelTimestamps(p: Product, i: nat, ts: seq<real>): (r: Product)
    requires i < |p.images|
    ensures |r.images| == |p.images| && r.images[i].timestamps == ts
    ensures r.images[i].(timestamps := p.images[i].timestamps) == p.images[i]
    ensures forall k :: 0 <= k < |p.images| && k != i ==> r.images[k] == p.images[k]
    ensures r.(images := p.images) == p
  {
    p.(images := p.images[i := p.images[i].(timestamps := ts)])
  }

  ///////////////////////// Timestamps

  /** `set_timestamps`: the product-wide series. */
  function SetTimestamps(p: Product, ts: seq<real>): (r: Product)
    ensures r.timestamps == Some(ts)
    ensures r.(timestamps := p.timestamps) == p
  {
    p.(timestamps := Some(ts))
  }

  /**
   * What reading the product-wide series yields: the series, or the empty
   * list the source returns when the read throws because the key is absent.
   */
  function GlobalTimestamps(p: Product): seq<real> {
    p.timestamps.GetOr([])
  }

  /**
   * `get_timestamps(index)`: index -1 asks for the product-wide series; a
   * channel index yields that channel's own series when it is non-empty and
   * the product-wide one otherwise, as does any index past the last channel.
   * An absent product-wide series yields the empty list instead of an error.
   */
  function GetTimestamps(p: Product, index: int): (r: seq<real>)
    requires index >= -1
    ensures index == -1 ==> r == GlobalTimestamps(p)
    ensures 0 <= index < |p.images| && p.images[index].timestamps != [] ==> r == p.images[index].timestamps
    ensures 0 <= index < |p.images| && p.images[index].timestamps == [] ==> r == GlobalTimestamps(p)
    ensures index >= |p.images| ==> r == GlobalTimestamps(p)
    ensures p.timestamps.None? && r != [] ==> 0 <= index < |p.images| && r == p.images[index].timestamps
  {
    if index == -1 then GlobalTimestamps(p)
    else if |p.images| > index then
      if |p.images[index].timestamps| > 0 then p.images[index].timestamps else GlobalTimestamps(p)
    else GlobalTimestamps(p)
  }

  /** Every channel without a series of its own reads the product-wide one. */
  lemma ChannelsWithoutSeriesUseGlobal(p: Product, ts: seq<real>, index: int)
    requires index >= -1
    requires forall k :: 0 <= k < |p.images| ==> p.images[k].timestamps == []
    ensures GetTimestamps(SetTimestamps(p, ts), index) == ts
  {
  }

  /**
   * Giving channel `i` a series of its own changes what `i` reads and
   * nothing else: every other index reads what it read before.
   */
  lemma ChannelSeriesOnlyAffectsItsChannel(p: Product, i: nat, ts: seq<real>, index: int)
    requires i < |p.images| && ts != [] && index >= -1
    ensures GetTimestamps(WithChannelTimestamps(p, i, ts), index) == (if index == i then ts else GetTimestamps(p, index))
  {
  }

  ///////////////////////// IFOV

  /** The per-channel value unless it is the unset marker, else the product's default. */
  function OverrideOr(value: int, fallback: int): int {
    if value != UNSET_IFOV then value else fallback
  }

  /** `get_ifov_y_size(index)`. */
  function GetIfovYSize(p: Product, index: int): (r: int)
    requires 0 <= index < |p.images|
    ensures r == p.images[index].ifovY || r == p.ifovY
    ensures r == UNSET_IFOV <==> p.images[index].ifovY == UNSET_IFOV && p.ifovY == UNSET_IFOV
    ensures p.images[index].ifovY != UNSET_IFOV ==> r == p.images[index].ifovY
  {
    OverrideOr(p.images[index].ifovY, p.ifovY)
  }

  /** `get_ifov_x_size(index)`. */
  function GetIfovXSize(p: Product, index: int): (r: int)
    requires 0 <= index < |p.images|
    ensures r == p.images[index].ifovX || r == p.ifovX
    ensures r == UNSET_IFOV <==> p.images[index].ifovX == UNSET_IFOV && p.ifovX == UNSET_IFOV
    ensures p.images[index].ifovX != UNSET_IFOV ==> r == p.images[index].ifovX
  {
    OverrideOr(p.images[index].ifovX, p.ifovX)
  }

  /**
   * Channels as constructed have no IFOV override, so they report the
   * product's defaults, which are themselves unset until assigned.
   */
  lemma FreshChannelIfov(p: Product, filename: string, channelName: string, image: Image)
    ensures var q := AddImage(p, NewHolder(filename, channelName, image));
      GetIfovYSize(q, |p.images|) == p.ifovY && GetIfovXSize(q, |p.images|) == p.ifovX
    ensures var q := AddImage(NewProduct(), NewHolder(filename, channelName, image));
      GetIfovYSize(q, 0) == UNSET_IFOV && GetIfovXSize(q, 0) == UNSET_IFOV
  {
    var q := AddImage(p, NewHolder(filename, channelName, image));
    assert q.images[|p.images|].ifovY == UNSET_IFOV;
    assert q.images[|p.images|].ifovX == UNSET_IFOV;
  }

  ///////////////////////// Projection

  /** `set_proj_cfg`. */
  function SetProjCfg(p: Product, cfg: Json): (r: Product)
    ensures r.projectionCfg == Some(cfg)
    ensures r.(projectionCfg := p.projectionCfg) == p
  {
    p.(projectionCfg := Some(cfg))
  }

  /**
   * `get_proj_cfg`: the non-const lookup inserts a null entry when the key
   * is absent, so the product it leaves behind is returned too.
   */
  function GetProjCfg(p: Product): (r: (Json, Product))
    ensures p.projectionCfg.Some? ==> r.0 == p.projectionCfg.value && r.1 == p
    ensures p.projectionCfg.None? ==> r.0 == Null && r.1 == p.(projectionCfg := Some(Null))
  {
    match p.projectionCfg
    case Some(cfg) => (cfg, p)
    case None => (Null, p.(projectionCfg := Some(Null)))
  }

  /**
   * `has_proj_cfg`: the key exists, whatever it holds. Exactly then does
   * reading the config leave the product as it was and return what is stored.
   */
  predicate HasProjCfg(p: Product)
    ensures HasProjCfg(p) <==> GetProjCfg(p).1 == p
    ensures HasProjCfg(p) ==> SetProjCfg(p, GetProjCfg(p).0) == p
  {
    p.projectionCfg.Some?
  }

  /**
   * `can_geometrically_correct`: the projection config exists and holds a
   * swath width, a resolution and an altitude.
   */
  function CanGeometricallyCorrect(p: Product): (r: bool)
    ensures r ==> HasProjCfg(p)
    ensures r <==> HasProjCfg(p) && forall key :: key in {SWATH_KEY, RESOLUTION_KEY, ALTITUDE_KEY} ==> Contains(p.projectionCfg.value, key)
  {
    if !HasProjCfg(p) then false
    else
      var cfg := GetProjCfg(p).0;
      Contains(cfg, SWATH_KEY) && Contains(cfg, RESOLUTION_KEY) && Contains(cfg, ALTITUDE_KEY)
  }

  /**
   * A config object carrying some subset of the three required keys allows
   * correction exactly when the subset is all of them.
   */
  lemma OnlyTheFullKeySetAllowsCorrection(p: Product, present: set<string>, other: map<string, Json>, v: Json)
    requires present <= {SWATH_KEY, RESOLUTION_KEY, ALTITUDE_KEY}
    requires forall key :: key in other ==> key !in {SWATH_KEY, RESOLUTION_KEY, ALTITUDE_KEY}
    ensures var cfg := Object(other + map key | key in present :: v);
      CanGeometricallyCorrect(SetProjCfg(p, cfg)) <==> present == {SWATH_KEY, RESOLUTION_KEY, ALTITUDE_KEY}
  {
    var cfg := Object(other + map key | key in present :: v);
    if CanGeometricallyCorrect(SetProjCfg(p, cfg)) {
      assert SWATH_KEY in present && RESOLUTION_KEY in present && ALTITUDE_KEY in present;
    }
  }

  /**
   * Reading the config of a product that has none makes `has_proj_cfg`
   * true afterwards, yet correction stays disabled.
   */
  lemma ReadingMissingProjCfgKeepsCorrectionOff(p: Product)
    requires !HasProjCfg(p)
    ensures HasProjCfg(GetProjCfg(p).1)
    ensures !CanGeometricallyCorrect(GetProjCfg(p).1)
  {
  }

  /**
   * `get_channel_proj_metdata(ch)`: a null document when the channel has no
   * horizontal offset, else an object holding only that offset.
   */
  function GetChannelProjMetadata(p: Product, ch: int): (mtd: Json)
    requires 0 <= ch < |p.images|
    ensures Contains(mtd, OFFSET_KEY) <==> p.images[ch].offsetX != 0
    ensures Contains(mtd, OFFSET_KEY) ==> mtd.fields == map[OFFSET_KEY := Int(p.images[ch].offsetX)]
    ensures !Contains(mtd, OFFSET_KEY) ==> mtd == Null
  {
    if p.images[ch].offsetX != 0 then Object(map[OFFSET_KEY := Int(p.images[ch].offsetX)]) else Null
  }

  /** How a consumer reads the offset back: the stored integer, 0 when absent. */
  function OffsetFromMetadata(mtd: Json): int {
    if Contains(mtd, OFFSET_KEY) && mtd.fields[OFFSET_KEY].Int? then mtd.fields[OFFSET_KEY].i else 0
  }

  /** Omitting a zero offset loses nothing: reading it back gives every channel's offset. */
  lemma ChannelOffsetRoundTrip(p: Product, ch: int)
    requires 0 <= ch < |p.images|
    ensures OffsetFromMetadata(GetChannelProjMetadata(p, ch)) == p.images[ch].offsetX
  {
  }

  ///////////////////////// Calibration

  /** The common effect of the four setters: entry `index` becomes `c`. */
  function SetCalibration(p: Product, index: nat, c: Calibration): (r: Product)
    ensures r.calibration.Some? && index in r.calibration.value && r.calibration.value[index] == c
    ensures forall k :: k != index ==> (p.calibration.Some? && k in p.calibration.value <==> k in r.calibration.value)
    ensures forall k :: k != index && k in r.calibration.value ==> r.calibration.value[k] == p.calibration.value[k]
    ensures r.(calibration := p.calibration) == p
  {
    p.(calibration := Some(p.calibration.GetOr(map[])[index := c]))
  }

  /** `set_calibration_polynomial`. */
  function SetCalibrationPolynomial(p: Product, index: nat, coefficients: seq<real>): (r: Product)
    ensures GetCalibration(r, index) == Some(Polynomial(coefficients))
    ensures forall k :: k != index ==> GetCalibration(r, k) == GetCalibration(p, k)
    ensures r.(calibration := p.calibration) == p
  {
    SetCalibration(p, index, Polynomial(coefficients))
  }

  /** `set_calibration_polynomial_per_line`. */
  function SetCalibrationPolynomialPerLine(p: Product, index: nat, coefficientsPerLine: seq<seq<real>>): (r: Product)
    ensures GetCalibration(r, index) == Some(PolynomialPerLine(coefficientsPerLine))
    ensures forall k :: k != index ==> GetCalibration(r, k) == GetCalibration(p, k)
    ensures r.(calibration := p.calibration) == p
  {
    SetCalibration(p, index, PolynomialPerLine(coefficientsPerLine))
  }

  /** `set_calibration_custom`. */
  function SetCalibrationCustom(p: Product, index: nat, equation: string): (r: Product)
    ensures GetCalibration(r, index) == Some(Custom(equation))
    ensures forall k :: k != index ==> GetCalibration(r, k) == GetCalibration(p, k)
    ensures r.(calibration := p.calibration) == p
  {
    SetCalibration(p, index, Custom(equation))
  }

  /** `set_calibration_custom_per_line`. */
  function SetCalibrationCustomPerLine(p: Product, index: nat, equations: seq<string>): (r: Product)
    ensures GetCalibration(r, index) == Some(CustomPerLine(equations))
    ensures forall k :: k != index ==> GetCalibration(r, k) == GetCalibration(p, k)
    ensures r.(calibration := p.calibration) == p
  {
    SetCalibration(p, index, CustomPerLine(equations))
  }

  /**
   * The calibration entry `contents["calibration"][index]` for channel
   * `index`, if one was ever stored: only a product with a calibration key
   * can have one, and storing it again changes nothing.
   */
  function GetCalibration(p: Product, index: nat): (r: Option<Calibration>)
    ensures r.Some? ==> HasCalibration(p) && index in p.calibration.value
    ensures r.Some? ==> SetCalibration(p, index, r.value) == p
    ensures r.None? ==> !HasCalibration(p) || index !in p.calibration.value
  {
    if p.calibration.Some? && index in p.calibration.value then
      var entries := p.calibration.value;
      assert entries[index := entries[index]] == entries;
      Some(entries[index])
    else None
  }

  /** `has_calibation`: the "calibration" key exists. */
  predicate HasCalibration(p: Product) {
    p.calibration.Some?
  }

  /**
   * `get_calibration_type(index)`: the tag of the stored entry. Without one
   * the source throws (`None` here). By then its non-const lookups have
   * created the "calibration" key, padded it with nulls up to `index` and
   * stored `{"type": null}` there; the returned product keeps the key, and
   * the placeholder reads as a missing entry.
   */
  function GetCalibrationType(p: Product, index: nat): (r: (Option<CalibrationType>, Product))
    ensures r.0.Some? <==> GetCalibration(p, index).Some?
    ensures r.0.Some? ==> r.0.value == GetCalibration(p, index).value.Type() && r.1 == p
    ensures r.0.None? ==> HasCalibration(r.1) && r.1 == p.(calibration := r.1.calibration)
    ensures forall k :: GetCalibration(r.1, k) == GetCalibration(p, k)
  {
    match GetCalibration(p, index)
    case Some(c) =>
      CalibrationCodeRoundTrip(c.Type());
      (TypeOfCode(c.Type().Code()), p)
    case None => (None, p.(calibration := Some(p.calibration.GetOr(map[]))))
  }

  /**
   * The "calibration" key is absent from a new product. Every calibration
   * setter creates it, and so does reading a type, whose non-const lookups
   * insert it even when they then throw; storing a wavenumber or a
   * timestamp series keeps it.
   */
  lemma CalibrationKeyLifecycle(p: Product, index: nat, c: Calibration)
    ensures !HasCalibration(NewProduct())
    ensures HasCalibration(SetCalibration(p, index, c))
    ensures HasCalibration(GetCalibrationType(p, index).1)
    ensures HasCalibration(p) ==> HasCalibration(SetWavenumber(p, index, 0.0)) && HasCalibration(SetTimestamps(p, []))
  {
  }

  /** Each setter is followed by the tag it stands for; other channels keep theirs. */
  lemma SetterDeterminesType(p: Product, index: nat, other: nat, coefs: seq<real>, perLine: seq<seq<real>>, equation: string, equations: seq<string>)
    requires other != index
    ensures GetCalibrationType(SetCalibrationPolynomial(p, index, coefs), index).0 == Some(PolynomialType)
    ensures GetCalibrationType(SetCalibrationPolynomialPerLine(p, index, perLine), index).0 == Some(PolynomialPerLineType)
    ensures GetCalibrationType(SetCalibrationCustom(p, index, equation), index).0 == Some(CustomType)
    ensures GetCalibrationType(SetCalibrationCustomPerLine(p, index, equations), index).0 == Some(CustomPerLineType)
    ensures GetCalibrationType(SetCalibrationPolynomial(p, index, coefs), other).0 == GetCalibrationType(p, other).0
    ensures GetCalibrationType(SetCalibrationPolynomialPerLine(p, index, perLine), other).0 == GetCalibrationType(p, other).0
    ensures GetCalibrationType(SetCalibrationCustom(p, index, equation), other).0 == GetCalibrationType(p, other).0
    ensures GetCalibrationType(SetCalibrationCustomPerLine(p, index, equations), other).0 == GetCalibrationType(p, other).0
  {
  }

  /** The stored code of every tag reads back as that tag. */
  lemma CalibrationCodeRoundTrip(t: CalibrationType)
    ensures TypeOfCode(t.Code()) == Some(t)
  {
  }

  ///////////////////////// Wavenumbers

  /** `set_wavenumber`. */
  function SetWavenumber(p: Product, index: nat, wavenumber: real): (r: Product)
    ensures r.wavenumbers.Some? && index in r.wavenumbers.value && r.wavenumbers.value[index] == wavenumber
    ensures forall k :: k != index ==> (p.wavenumbers.Some? && k in p.wavenumbers.value <==> k in r.wavenumbers.value)
    ensures forall k :: k != index && k in r.wavenumbers.value ==> r.wavenumbers.value[k] == p.wavenumbers.value[k]
    ensures r.(wavenumbers := p.wavenumbers) == p
  {
    p.(wavenumbers := Some(p.wavenumbers.GetOr(map[])[index := wavenumber]))
  }

  /**
   * `get_wavenumber(index)`: 0 when no wavenumber was ever stored, the
   * stored value otherwise; once some are stored, an index without one makes
   * the source throw (`None`).
   */
  function GetWavenumber(p: Product, index: nat): (r: Option<real>)
    ensures p.wavenumbers.None? ==> r == Some(0.0)
    ensures p.wavenumbers.Some? ==> (r.Some? <==> index in p.wavenumbers.value)
    ensures p.wavenumbers.Some? && r.Some? ==> r.value == p.wavenumbers.value[index]
  {
    match p.wavenumbers
    case None => Some(0.0)
    case Some(w) => if index in w then Some(w[index]) else None
  }

  /** Setting then getting a wavenumber returns it; other set channels keep theirs. */
  lemma WavenumberSetGet(p: Product, index: nat, other: nat, wavenumber: real)
    requires other != index
    ensures GetWavenumber(SetWavenumber(p, index, wavenumber), index) == Some(wavenumber)
    ensures p.wavenumbers.Some? ==> GetWavenumber(SetWavenumber(p, index, wavenumber), other) == GetWavenumber(p, other)
    ensures GetWavenumber(NewProduct(), index) == Some(0.0)
  {
  }

  /**
   * Before any wavenumber is stored every channel reads 0; once one channel's
   * is stored, a channel without one no longer reads 0 but makes the source throw.
   */
  lemma FirstWavenumberEndsDefault(p: Product, index: nat, other: nat, wavenumber: real)
    requires p.wavenumbers.None? && other != index
    ensures GetWavenumber(p, other) == Some(0.0)
    ensures GetWavenumber(SetWavenumber(p, index, wavenumber), other) == None
  {
  }
}
