/**
 * The composite recipe `ImageCompositeCfg` and its JSON conversions.
 * A recipe is either an equation over channel names or a LUT reference with
 * the channel list it is indexed by, plus four independent post-processing flags.
 */
module CompositeCfg {
  import opened Wrappers
  import opened Json

  const EQUATION := "equation"
  const EQUALIZE := "equalize"
  const INVERT := "invert"
  const NORMALIZE := "normalize"
  const WHITE_BALANCE := "white_balance"
  const LUT := "lut"
  const LUT_CHANNELS := "lut_channels"

  datatype Cfg = Cfg(
    equation: string,
    equalize: bool,
    invert: bool,
    normalize: bool,
    whiteBalance: bool,
    lut: string,
    lutChannels: string)

  /** A default-constructed recipe: every string empty, every flag off. */
  function DefaultCfg(): (c: Cfg)
    ensures c.equation == c.lut == c.lutChannels == ""
    ensures !c.equalize && !c.invert && !c.normalize && !c.whiteBalance
  {
    Cfg("", false, false, false, false, "", "")
  }

  /** `to_json`: every one of the seven fields is written, the equation always. */
  function ToJson(c: Cfg): (j: Json)
    ensures j.Object?
    ensures j.fields.Keys == {EQUATION, EQUALIZE, INVERT, NORMALIZE, WHITE_BALANCE, LUT, LUT_CHANNELS}
    ensures j.fields[EQUATION] == Str(c.equation)
    ensures j.fields[EQUALIZE] == Bool(c.equalize)
    ensures j.fields[INVERT] == Bool(c.invert)
    ensures j.fields[NORMALIZE] == Bool(c.normalize)
    ensures j.fields[WHITE_BALANCE] == Bool(c.whiteBalance)
    ensures j.fields[LUT] == Str(c.lut)
    ensures j.fields[LUT_CHANNELS] == Str(c.lutChannels)
  {
    Object(map[
      EQUATION := Str(c.equation),
      EQUALIZE := Bool(c.equalize),
      INVERT := Bool(c.invert),
      NORMALIZE := Bool(c.normalize),
      WHITE_BALANCE := Bool(c.whiteBalance),
      LUT := Str(c.lut),
      LUT_CHANNELS := Str(c.lutChannels)])
  }

  /** A present key holds a value of the type `from_json` reads it as. */
  predicate HoldsIfPresent(j: Json, key: string, isString: bool) {
    Contains(j, key) ==> (if isString then j.fields[key].Str? else j.fields[key].Bool?)
  }

  /**
   * The documents `from_json` reads without throwing: the recipe keys it
   * actually consults are strings (and `lut_channels` exists when the LUT
   * branch is taken), and every flag that is present is a boolean.
   */
  predicate Readable(j: Json) {
    && HoldsIfPresent(j, EQUATION, true)
    && (!Contains(j, EQUATION) && Contains(j, LUT) ==>
          j.fields[LUT].Str? && Contains(j, LUT_CHANNELS) && j.fields[LUT_CHANNELS].Str?)
    && HoldsIfPresent(j, EQUALIZE, false)
    && HoldsIfPresent(j, INVERT, false)
    && HoldsIfPresent(j, NORMALIZE, false)
    && HoldsIfPresent(j, WHITE_BALANCE, false)
  }

  /** A flag is overwritten only when its key is present. */
  function ReadFlag(j: Json, key: string, current: bool): (r: Result<bool, JsonError>)
    ensures r.Success? <==> HoldsIfPresent(j, key, false)
    ensures r.Success? && !Contains(j, key) ==> r.value == current
    ensures r.Success? && Contains(j, key) ==> j.fields[key] == Bool(r.value)
  {
    if Contains(j, key) then GetBool(j, key) else Success(current)
  }

  /** The recipe part: the equation if present, otherwise the LUT pair if `lut` is present. */
  function ReadRecipe(j: Json, v: Cfg): (r: Result<Cfg, JsonError>)
    ensures r.Success? <==>
      && HoldsIfPresent(j, EQUATION, true)
      && (!Contains(j, EQUATION) && Contains(j, LUT) ==>
            j.fields[LUT].Str? && Contains(j, LUT_CHANNELS) && j.fields[LUT_CHANNELS].Str?)
    ensures r.Success? ==> r.value.(equation := v.equation, lut := v.lut, lutChannels := v.lutChannels) == v
    ensures r.Success? && Contains(j, EQUATION) ==>
      && j.fields[EQUATION] == Str(r.value.equation)
      && r.value.lut == v.lut && r.value.lutChannels == v.lutChannels
    ensures r.Success? && !Contains(j, EQUATION) ==> r.value.equation == v.equation
    ensures r.Success? && !Contains(j, EQUATION) && Contains(j, LUT) ==>
      j.fields[LUT] == Str(r.value.lut) && j.fields[LUT_CHANNELS] == Str(r.value.lutChannels)
    ensures r.Success? && !Contains(j, EQUATION) && !Contains(j, LUT) ==>
      r.value.lut == v.lut && r.value.lutChannels == v.lutChannels
  {
    if Contains(j, EQUATION) then
      var e :- GetString(j, EQUATION);
      Success(v.(equation := e))
    else if Contains(j, LUT) then
      var l :- GetString(j, LUT);
      var ch :- GetString(j, LUT_CHANNELS);
      Success(v.(lut := l, lutChannels := ch))
    else
      Success(v)
  }

  /** The four flags, in source order; the recipe fields are left alone. */
  function ReadFlags(j: Json, v: Cfg): (r: Result<Cfg, JsonError>)
    ensures r.Success? <==>
      && HoldsIfPresent(j, EQUALIZE, false)
      && HoldsIfPresent(j, INVERT, false)
      && HoldsIfPresent(j, NORMALIZE, false)
      && HoldsIfPresent(j, WHITE_BALANCE, false)
    ensures r.Success? ==> r.value.equation == v.equation && r.value.lut == v.lut && r.value.lutChannels == v.lutChannels
    ensures r.Success? ==> (if Contains(j, EQUALIZE) then j.fields[EQUALIZE] == Bool(r.value.equalize) else r.value.equalize == v.equalize)
    ensures r.Success? ==> (if Contains(j, INVERT) then j.fields[INVERT] == Bool(r.value.invert) else r.value.invert == v.invert)
    ensures r.Success? ==> (if Contains(j, NORMALIZE) then j.fields[NORMALIZE] == Bool(r.value.normalize) else r.value.normalize == v.normalize)
    ensures r.Success? ==> (if Contains(j, WHITE_BALANCE) then j.fields[WHITE_BALANCE] == Bool(r.value.whiteBalance) else r.value.whiteBalance == v.whiteBalance)
  {
    var equalize :- ReadFlag(j, EQUALIZE, v.equalize);
    var invert :- ReadFlag(j, INVERT, v.invert);
    var normalize :- ReadFlag(j, NORMALIZE, v.normalize);
    var whiteBalance :- ReadFlag(j, WHITE_BALANCE, v.whiteBalance);
    Success(v.(equalize := equalize, invert := invert, normalize := normalize, whiteBalance := whiteBalance))
  }

  /**
   * `from_json(j, v)`: updates the recipe `v` in place from `j`; a failure is
   * a value of the wrong type (an exception in the library) or a `lut` without
   * `lut_channels` (undefined behaviour there). The equation takes precedence: when it
   * is present, `lut` and `lut_channels` are not read at all.
   */
  function FromJsonInto(j: Json, v: Cfg): (r: Result<Cfg, JsonError>)
    ensures r.Success? <==> Readable(j)
    // recipe: equation wins over LUT
    ensures r.Success? && Contains(j, EQUATION) ==>
      && j.fields[EQUATION] == Str(r.value.equation)
      && r.value.lut == v.lut && r.value.lutChannels == v.lutChannels
    ensures r.Success? && !Contains(j, EQUATION) ==> r.value.equation == v.equation
    ensures r.Success? && !Contains(j, EQUATION) && Contains(j, LUT) ==>
      j.fields[LUT] == Str(r.value.lut) && j.fields[LUT_CHANNELS] == Str(r.value.lutChannels)
    ensures r.Success? && !Contains(j, EQUATION) && !Contains(j, LUT) ==>
      r.value.lut == v.lut && r.value.lutChannels == v.lutChannels
    // flags: each changes only when its own key is present
    ensures r.Success? ==> (if Contains(j, EQUALIZE) then j.fields[EQUALIZE] == Bool(r.value.equalize) else r.value.equalize == v.equalize)
    ensures r.Success? ==> (if Contains(j, INVERT) then j.fields[INVERT] == Bool(r.value.invert) else r.value.invert == v.invert)
    ensures r.Success? ==> (if Contains(j, NORMALIZE) then j.fields[NORMALIZE] == Bool(r.value.normalize) else r.value.normalize == v.normalize)
    ensures r.Success? ==> (if Contains(j, WHITE_BALANCE) then j.fields[WHITE_BALANCE] == Bool(r.value.whiteBalance) else r.value.whiteBalance == v.whiteBalance)
  {
    var recipe :- ReadRecipe(j, v);
    ReadFlags(j, recipe)
  }

  /** `j.get<ImageCompositeCfg>()`: decoding into a default-constructed recipe. */
  function FromJson(j: Json): (r: Result<Cfg, JsonError>)
    ensures r.Success? <==> Readable(j)
    ensures r.Success? && !Contains(j, EQUATION) ==> r.value.equation == ""
    ensures r.Success? && (Contains(j, EQUATION) || !Contains(j, LUT)) ==> r.value.lut == r.value.lutChannels == ""
    ensures r.Success? && !Contains(j, EQUALIZE) ==> !r.value.equalize
    ensures r.Success? && !Contains(j, INVERT) ==> !r.value.invert
    ensures r.Success? && !Contains(j, NORMALIZE) ==> !r.value.normalize
    ensures r.Success? && !Contains(j, WHITE_BALANCE) ==> !r.value.whiteBalance
  {
    FromJsonInto(j, DefaultCfg())
  }

  /**
   * Decoding what `to_json` wrote restores the equation and the four flags;
   * because the equation key is always written, the LUT fields of the target
   * are left as they were.
   */
  lemma RoundTripInto(c: Cfg, v: Cfg)
    ensures FromJsonInto(ToJson(c), v) == Success(c.(lut := v.lut, lutChannels := v.lutChannels))
  {
    var j := ToJson(c);
    assert Readable(j);
  }

  /** From a fresh recipe the LUT fields come back empty, whatever `c` held. */
  lemma RoundTrip(c: Cfg)
    ensures FromJson(ToJson(c)) == Success(c.(lut := "", lutChannels := ""))
  {
    RoundTripInto(c, DefaultCfg());
  }

  /** The round trip is the identity exactly on recipes without LUT fields. */
  lemma RoundTripExactIff(c: Cfg)
    ensures FromJson(ToJson(c)) == Success(c) <==> c.lut == "" && c.lutChannels == ""
  {
    RoundTrip(c);
    if FromJson(ToJson(c)) == Success(c) {
      assert c.(lut := "", lutChannels := "") == c;
    }
  }

  /**
   * With an equation present, whatever `lut` and `lut_channels` hold (even
   * values of the wrong type) has no effect on the decoded recipe.
   */
  lemma EquationIgnoresLut(j: Json, v: Cfg, lutValue: Json, channelsValue: Json)
    requires Contains(j, EQUATION)
    ensures FromJsonInto(Object(j.fields[LUT := lutValue][LUT_CHANNELS := channelsValue]), v) == FromJsonInto(j, v)
  {
    var j' := Object(j.fields[LUT := lutValue][LUT_CHANNELS := channelsValue]);
    assert forall k :: k != LUT && k != LUT_CHANNELS ==> (Contains(j', k) <==> Contains(j, k));
    assert forall k :: k != LUT && k != LUT_CHANNELS && Contains(j, k) ==> j'.fields[k] == j.fields[k];
  }
}
