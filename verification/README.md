# Image-product metadata and AVHRR telemetry decoding, in Dafny

This project models two pieces of SatDump's core as pure Dafny functions and proves their properties.

1. **Image-product metadata** (`ImageProducts`, `src-core/products/image_products.h`). A multi-channel
   product is a list of channel holders. The source keeps the rest of its metadata in an untyped JSON
   `contents` document. Here each part is an explicit optional field: the product-wide timestamp series,
   the projection config, a calibration map from channel index to a four-variant descriptor, and a
   wavenumber map. `None` means the key is absent from `contents`. The model covers:
   - timestamp lookup with per-channel fallback;
   - IFOV lookup with per-channel overrides;
   - the projection-readiness check;
   - per-channel projection metadata;
   - the calibration setters and the type getter;
   - wavenumbers.
2. **The composite recipe** (`ImageCompositeCfg`, same header). A recipe is an equation or a LUT reference
   plus channel list, with four post-processing flags. `CompositeCfg` models its `to_json` and `from_json`
   over a small JSON value type (`Json`). A value of the wrong type, which makes the library throw, becomes a
   `Failure` value. So does a `lut` without `lut_channels`, which reads a missing key through a const
   `operator[]` and has undefined behaviour in the library.
3. **AVHRR telemetry** (`plugins/noaa_metop_support/noaa/instruments/avhrr/module_noaa_avhrr.cpp`).
   `AvhrrTelemetry` models the per-line bit fields in words 6 and 8–11 (16-bit `bv16` words), the
   day-aligned year base and the line timestamp. `AvhrrIdentification` models the majority vote over
   spacecraft ids and the id → {name, NORAD number} lookup. Timestamps are integer milliseconds.

Files: `wrappers.dfy` (Option/Result), `json.dfy`, `image_products.dfy`, `composite_cfg.dfy`,
`avhrr_telemetry.dfy`, `avhrr_identification.dfy`.

Three facts about the code that a reader might not expect:
- Any value stored under `projection_cfg`, even one without the three correction keys, makes
  `has_proj_cfg()` true. Only `can_geometrically_correct()` checks for `corr_swath`, `corr_resol` and `corr_altit`.
- The identification code gives all three supported ids the name `"NOAA-15"`, although its log lines
  name NOAA-18 and NOAA-19; see Findings.
- `get_wavenumber` returns 0 only while no wavenumber has been stored. After the first one is stored,
  reading a channel without one throws.

## Model

| member | source | states |
|---|---|---|
| `ImageProducts.NewHolder` | src-core/products/image_products.h:11-20 | A new channel has no timestamp series of its own, both IFOV fields unset (-1) and a zero offset. |
| `ImageProducts.NewProduct` | src-core/products/image_products.h:22-31 | A new product has no channels, product IFOVs of -1, a bit depth of 16, and no timestamps, projection, calibration or wavenumbers. |
| `ImageProducts.SetTimestamps` | src-core/products/image_products.h:44-47 | Stores the product-wide series and changes nothing else. |
| `ImageProducts.GetTimestamps` | src-core/products/image_products.h:49-70 | Index -1 gives the product-wide series. A channel with a non-empty series gives that series. A channel with an empty series, or an index past the last channel, falls back to the product-wide series. An absent product-wide series reads as the empty list, never an error. |
| `ImageProducts.ChannelsWithoutSeriesUseGlobal` | src-core/products/image_products.h:44-70 | While no channel has a series of its own, every index from -1 up reads exactly the series last set with `set_timestamps`. |
| `ImageProducts.ChannelSeriesOnlyAffectsItsChannel` | src-core/products/image_products.h:49-64 | Giving channel i a non-empty series makes i read that series. Every other index reads what it read before. |
| `ImageProducts.GetIfovYSize` | src-core/products/image_products.h:72-78 | Returns the channel's vertical IFOV unless it is -1, else the product default. The result is -1 only when both are unset. |
| `ImageProducts.GetIfovXSize` | src-core/products/image_products.h:80-86 | Same as `GetIfovYSize`, for the horizontal IFOV. |
| `ImageProducts.FreshChannelIfov` | src-core/products/image_products.h:17-27 | A freshly added channel reports the product's IFOV defaults. In a fresh product those are -1. |
| `ImageProducts.SetProjCfg` | src-core/products/image_products.h:90-93 | Stores the projection config and changes nothing else. |
| `ImageProducts.GetProjCfg` | src-core/products/image_products.h:95-98 | Returns the stored config. When there is none it returns null and leaves a null config entry behind. |
| `ImageProducts.HasProjCfg` | src-core/products/image_products.h:95-111 | A config exists exactly when reading it leaves the product unchanged. Storing what was read back into such a product changes nothing. |
| `ImageProducts.CanGeometricallyCorrect` | src-core/products/image_products.h:108-126 | True iff a projection config exists and is an object holding all of `corr_swath`, `corr_resol` and `corr_altit`. |
| `ImageProducts.OnlyTheFullKeySetAllowsCorrection` | src-core/products/image_products.h:113-126 | For a config holding any subset of the three keys (plus unrelated keys), correction is allowed iff the subset is the full set. So each of the seven proper subsets disables it. |
| `ImageProducts.ReadingMissingProjCfgKeepsCorrectionOff` | src-core/products/image_products.h:95-126 | On a product with no config, `get_proj_cfg()` makes `has_proj_cfg()` true, but correction stays disabled. |
| `ImageProducts.GetChannelProjMetadata` | src-core/products/image_products.h:100-106 | The metadata holds `img_offset_x` iff the channel's offset is non-zero. It then holds only that key, with the offset as its value; otherwise it is null. |
| `ImageProducts.ChannelOffsetRoundTrip` | src-core/products/image_products.h:100-106 | Reading the offset back from the metadata, with 0 for an absent key, gives every channel's offset. |
| `ImageProducts.SetCalibration` | src-core/products/image_products.h:137-159 | Entry `index` becomes the given descriptor. Every other entry keeps its presence and value. |
| `ImageProducts.SetCalibrationPolynomial` | src-core/products/image_products.h:137-141 | Afterwards channel `index` holds `Polynomial(coefficients)`. Every other channel's calibration is unchanged. |
| `ImageProducts.SetCalibrationPolynomialPerLine` | src-core/products/image_products.h:143-147 | Afterwards channel `index` holds `PolynomialPerLine(coefficients)`. Every other channel's calibration is unchanged. |
| `ImageProducts.SetCalibrationCustom` | src-core/products/image_products.h:149-153 | Afterwards channel `index` holds `Custom(equation)`. Every other channel's calibration is unchanged. |
| `ImageProducts.SetCalibrationCustomPerLine` | src-core/products/image_products.h:155-159 | Afterwards channel `index` holds `CustomPerLine(equations)`. Every other channel's calibration is unchanged. |
| `ImageProducts.CalibrationKeyLifecycle` | src-core/products/image_products.h:137-169 | A new product has no calibration key, so `has_calibation()` is false. Every calibration setter creates the key. So does `get_calibration_type`, even when it then throws. Storing a wavenumber or a timestamp series keeps the key. |
| `ImageProducts.GetCalibration` | src-core/products/image_products.h:166-169 | A channel's entry exists only when the calibration key exists and holds that index. Storing the entry read back changes nothing. |
| `ImageProducts.GetCalibrationType` | src-core/products/image_products.h:166-169 | Gives a tag iff the channel has a calibration, and the tag, read back from its stored integer code, is that descriptor's. Without one the source throws. The calibration key then exists, and no channel's calibration changes: the `{"type": null}` placeholder the source leaves at the index reads as a missing entry. |
| `ImageProducts.SetterDeterminesType` | src-core/products/image_products.h:137-169 | Each of the four setters is followed by its own tag (POLYNOMIAL, POLYNOMIAL_PER_LINE, CUSTOM, CUSTOM_PER_LINE). After each of the four, every other channel's tag is unchanged. |
| `ImageProducts.TypeOfCode` | src-core/products/image_products.h:129-135 | Exactly the codes 0 to 3 name an enumerator, and that enumerator's value is the code. |
| `ImageProducts.CalibrationCodeRoundTrip` | src-core/products/image_products.h:129-135 | Every tag's stored code reads back as that tag. |
| `ImageProducts.SetWavenumber` | src-core/products/image_products.h:171-174 | Stores the wavenumber for `index`. Every other channel's entry keeps its presence and value. |
| `ImageProducts.GetWavenumber` | src-core/products/image_products.h:176-182 | Gives 0 when no wavenumber was ever stored. Once some are stored, it gives the stored value, or an error (the source's throw) for a channel without one. |
| `ImageProducts.WavenumberSetGet` | src-core/products/image_products.h:171-182 | Reading right after a set returns the set value. Other stored channels are unaffected. A new product reads 0. |
| `ImageProducts.FirstWavenumberEndsDefault` | src-core/products/image_products.h:171-182 | Before any set, every channel reads 0. After the first set, a different channel reads an error, not 0. |
| `CompositeCfg.DefaultCfg` | src-core/products/image_products.h:194-204 | A default recipe has empty equation, LUT and channel list, and all four flags false. |
| `CompositeCfg.ToJson` | src-core/products/image_products.h:206-216 | Writes exactly the seven keys, the equation always, each holding its field's value. |
| `CompositeCfg.ReadRecipe` | src-core/products/image_products.h:220-228 | Reading the recipe part changes only the equation, LUT and LUT channel list. |
| `CompositeCfg.ReadFlag` | src-core/products/image_products.h:230-237 | A flag changes only when its key is present, and then becomes that boolean. A present non-boolean is an error. |
| `CompositeCfg.ReadFlags` | src-core/products/image_products.h:230-237 | Succeeds iff every present flag is a boolean. The recipe fields are untouched, and each flag changes only when its key is present. |
| `CompositeCfg.FromJsonInto` | src-core/products/image_products.h:218-238 | Succeeds iff the keys it reads have the right types. A present equation is taken and `lut`/`lut_channels` are then not read. Without an equation, both LUT fields are read when `lut` is present. Each flag changes only if its key is present. |
| `CompositeCfg.FromJson` | src-core/products/image_products.h:218-238 | Decoding into a default recipe: each field stays empty or false unless its key (or, for the LUT pair, `lut` without `equation`) is present. |
| `CompositeCfg.RoundTripInto` | src-core/products/image_products.h:206-238 | Decoding `to_json(c)` into any recipe `v` gives `c`'s equation and flags, and keeps `v`'s LUT fields. |
| `CompositeCfg.RoundTrip` | src-core/products/image_products.h:206-238 | `from_json(to_json(c))` restores the equation and all four flags, and yields empty LUT fields. |
| `CompositeCfg.RoundTripExactIff` | src-core/products/image_products.h:206-238 | The round trip gives back `c` exactly iff `c` has empty LUT fields. |
| `CompositeCfg.EquationIgnoresLut` | src-core/products/image_products.h:220-228 | With an equation present, replacing `lut` and `lut_channels` by anything, even ill-typed values, does not change the decoded recipe. |
| `AvhrrTelemetry.DayOfYear` | plugins/noaa_metop_support/noaa/instruments/avhrr/module_noaa_avhrr.cpp:91 | The day is word 8 without its lowest bit. Shifting it back and restoring that bit gives word 8. It is below 2^15, and below 2^9 for a 10-bit word. |
| `AvhrrTelemetry.DayRoundTrip` | plugins/noaa_metop_support/noaa/instruments/avhrr/module_noaa_avhrr.cpp:91 | A day placed above any low bit of word 8 is decoded back unchanged. |
| `AvhrrTelemetry.MillisecondsOfDay` | plugins/noaa_metop_support/noaa/instruments/avhrr/module_noaa_avhrr.cpp:92 | The millisecond count is below 2^27 for all 16-bit words. For 10-bit words 10 and 11 it is the sum (w9 & 0x7F)·2^20 + w10·2^10 + w11. |
| `AvhrrTelemetry.TimeWords` | plugins/noaa_metop_support/noaa/instruments/avhrr/module_noaa_avhrr.cpp:92 | Splitting a 27-bit count gives words of 7, 10 and 10 bits. |
| `AvhrrTelemetry.MillisecondsRoundTrip` | plugins/noaa_metop_support/noaa/instruments/avhrr/module_noaa_avhrr.cpp:92 | Every count below 2^27, split into words 9 to 11, decodes back to itself. |
| `AvhrrTelemetry.TimeWordsRoundTrip` | plugins/noaa_metop_support/noaa/instruments/avhrr/module_noaa_avhrr.cpp:92 | Every triple (a < 2^7, b < 2^10, c < 2^10), decoded and split again, is returned unchanged. |
| `AvhrrTelemetry.SpacecraftId` | plugins/noaa_metop_support/noaa/instruments/avhrr/module_noaa_avhrr.cpp:103 | The id is below 16 and sits exactly in bits 3-6 of word 6. |
| `AvhrrTelemetry.WithSpacecraftId` | plugins/noaa_metop_support/noaa/instruments/avhrr/module_noaa_avhrr.cpp:103 | Writing an id into a word keeps all bits outside 3-6. |
| `AvhrrTelemetry.SpacecraftIdRoundTrip` | plugins/noaa_metop_support/noaa/instruments/avhrr/module_noaa_avhrr.cpp:103 | An id written into bits 3-6 reads back unchanged. Writing back the id just read leaves the word unchanged. |
| `AvhrrTelemetry.TruncatedDayRemainder` | plugins/noaa_metop_support/noaa/instruments/avhrr/module_noaa_avhrr.cpp:65 | C++ `t % 86400` is in [0, 86400) for t ≥ 0 and in (-86400, 0] for t < 0. In both cases t minus the remainder is a multiple of 86400. |
| `AvhrrTelemetry.DayAligned` | plugins/noaa_metop_support/noaa/instruments/avhrr/module_noaa_avhrr.cpp:65 | The year base is a multiple of 86400. For t ≥ 0 it is the start of t's day. For t < 0 it is the end of t's day (rounding toward zero). |
| `AvhrrTelemetry.DayAlignedIdempotent` | plugins/noaa_metop_support/noaa/instruments/avhrr/module_noaa_avhrr.cpp:65 | Aligning an aligned time changes nothing. |
| `AvhrrTelemetry.TimestampIncreasingInDay` | plugins/noaa_metop_support/noaa/instruments/avhrr/module_noaa_avhrr.cpp:93 | For a fixed millisecond count, a later day gives a strictly later timestamp, later by whole days. |
| `AvhrrTelemetry.TimestampOrderIsLexicographic` | plugins/noaa_metop_support/noaa/instruments/avhrr/module_noaa_avhrr.cpp:93 | When both millisecond counts are below one day, timestamps compare exactly as (day, millisecond) pairs compare lexicographically. |
| `AvhrrTelemetry.TimestampMs` | plugins/noaa_metop_support/noaa/instruments/avhrr/module_noaa_avhrr.cpp:93 | For every millisecond count, the timestamp minus the year base and the count is exactly `day` whole days. So it is never earlier than the year base plus the count. While the count is below one day, dividing the offset from the year base by one day gives back the day, and the remainder gives back the count. |
| `AvhrrTelemetry.MillisecondsValue` | plugins/noaa_metop_support/noaa/instruments/avhrr/module_noaa_avhrr.cpp:92 | For 10-bit words 10 and 11, the integer value of the or-ed millisecond field is (w9 & 0x7F)·2^20 + w10·2^10 + w11. |
| `AvhrrTelemetry.LineMilliseconds` | plugins/noaa_metop_support/noaa/instruments/avhrr/module_noaa_avhrr.cpp:92 | A line's millisecond count is below 2^27. For 10-bit words 10 and 11 it is (w9 & 0x7F)·2^20 + w10·2^10 + w11. |
| `AvhrrTelemetry.LineTimestampMs` | plugins/noaa_metop_support/noaa/instruments/avhrr/module_noaa_avhrr.cpp:91-93 | A line's exact timestamp lies in [base + day, base + day + 2^27 ms). For 10-bit words 10 and 11 it is base·1000 + (w8 >> 1)·86400000 + (w9 & 0x7F)·2^20 + w10·2^10 + w11. |
| `AvhrrTelemetry.LineTimestampMsAsWritten` | plugins/noaa_metop_support/noaa/instruments/avhrr/module_noaa_avhrr.cpp:91-93 | A line's timestamp with the 32-bit day product. It equals the exact timestamp when word 8 has 10 bits, and otherwise differs from it by whole 2^32-second wrap-arounds. Its day part, the timestamp minus the year base and the line's millisecond count, always lies in [-2^31, 2^31) seconds. Together these fix the wrapped value for every day word. |
| `AvhrrTelemetry.LineWrapsOnFullDayWord` | plugins/noaa_metop_support/noaa/instruments/avhrr/module_noaa_avhrr.cpp:91-93 | For every line whose day word is 0xFFFF, the source's timestamp differs from the exact one. |
| `AvhrrTelemetry.DecodeLines` | plugins/noaa_metop_support/noaa/instruments/avhrr/module_noaa_avhrr.cpp:65-103 | Every line contributes, in order, its timestamp against the day-aligned year base and its spacecraft id. The timestamp is the source's, with the 32-bit day product. It is the exact one for every line whose day word has 10 bits. Every id is in [0, 15]. |
| `AvhrrTelemetry.WrapInt32` | plugins/noaa_metop_support/noaa/instruments/avhrr/module_noaa_avhrr.cpp:93 | A 32-bit `int` result lies in its range, differs from the exact value by a multiple of 2^32, and equals it when that fits. |
| `AvhrrTelemetry.TimestampMsAsWritten` | plugins/noaa_metop_support/noaa/instruments/avhrr/module_noaa_avhrr.cpp:93 | The source's timestamp differs from the exact one by whole 2^32-second wrap-arounds. Its day part stays in [-2^31, 2^31) seconds. |
| `AvhrrTelemetry.AsWrittenAgreesWithoutOverflow` | plugins/noaa_metop_support/noaa/instruments/avhrr/module_noaa_avhrr.cpp:93 | While day·86400 fits in 32 bits, the source's timestamp is the exact one. |
| `AvhrrTelemetry.AsWrittenAgreesOnTenBitWords` | plugins/noaa_metop_support/noaa/instruments/avhrr/module_noaa_avhrr.cpp:91-93 | A 10-bit day word never overflows, so the source's timestamp is exact. |
| `AvhrrTelemetry.DayOverflowCounterexample` | plugins/noaa_metop_support/noaa/instruments/avhrr/module_noaa_avhrr.cpp:91-93 | Day word 0xFFFF (day 32767) puts the source's timestamp before the year base. The exact one is 32767 days after it. |
| `AvhrrIdentification.IdentifyAsWritten` | plugins/noaa_metop_support/noaa/instruments/avhrr/module_noaa_avhrr.cpp:174-207 | The descriptor carries the input id. Its NORAD number comes from the supported table (7 → 25338, 13 → 28654, 15 → 33591), else 0. Its name is "NOAA-15" for every supported id, else "NOAA-UNKNOWN". |
| `AvhrrIdentification.Identify` | plugins/noaa_metop_support/noaa/instruments/avhrr/module_noaa_avhrr.cpp:174-207 | The descriptor carries the input id. A supported id gets its own table entry's name and NORAD number. Any other id gets "NOAA-UNKNOWN" and 0. |
| `AvhrrIdentification.AsWrittenDiffersOnlyInName` | plugins/noaa_metop_support/noaa/instruments/avhrr/module_noaa_avhrr.cpp:175-200 | The source's chain and the corrected chain agree on id and NORAD number for every id. Their names differ exactly for ids 13 and 15. |
| `AvhrrIdentification.AsWrittenMislabelsNoaa18` | plugins/noaa_metop_support/noaa/instruments/avhrr/module_noaa_avhrr.cpp:184-191 | Id 13 is reported with NOAA-18's catalog number but the name "NOAA-15". |
| `AvhrrIdentification.IdentifyIsConsistent` | plugins/noaa_metop_support/noaa/instruments/avhrr/module_noaa_avhrr.cpp:174-207 | The NORAD number is 0 iff the id is unsupported. A non-zero NORAD number determines the id. Equal NORAD numbers give equal names. |
| `AvhrrIdentification.MostCommon` | plugins/noaa_metop_support/noaa/instruments/avhrr/module_noaa_avhrr.cpp:174 | For a non-empty list, the result occurs in the list and no element of the list occurs more often. |
| `AvhrrIdentification.MostFrequentAmongAllValues` | plugins/noaa_metop_support/noaa/instruments/avhrr/module_noaa_avhrr.cpp:174 | A value at least as frequent as every element of the list is at least as frequent as any value at all. |
| `AvhrrIdentification.MajorityId` | plugins/noaa_metop_support/noaa/instruments/avhrr/module_noaa_avhrr.cpp:174 | For a non-empty list, the result occurs in the list, and no value at all occurs more often. |
| `AvhrrIdentification.IdentifyPass` | plugins/noaa_metop_support/noaa/instruments/avhrr/module_noaa_avhrr.cpp:166-207 | A descriptor is produced iff at least one line was decoded. It is then the source's identification (`IdentifyAsWritten`) of an id that occurs in the list with maximal count. |
| `AvhrrIdentification.IdentifyPassCorrected` | plugins/noaa_metop_support/noaa/instruments/avhrr/module_noaa_avhrr.cpp:166-207 | The same step with the corrected chain: a descriptor iff at least one line was decoded, carrying a most frequent id and that id's own name and NORAD number. |

## Left out

- `get_radiance_value`, `save`, `load`, `make_composite_from_product` and `perform_geometric_correction` are declared in the header, but their bodies are not part of this model. They cover radiance evaluation, file I/O, expression evaluation and float resampling.
- `calibration_polynomial_coefs` is a cache that `load` fills. `timestamp_type` is never initialised in the header. Neither is modelled.
- The `Products` base class and the other keys of `contents` are not modelled, because `products.h` is not part of this model.
- Pixel buffers are carried in `Image` but never inspected.
- Typed fields cannot hold a JSON value of the wrong type, such as a non-array `timestamps` from a file. The source's `catch` in `get_timestamps` maps that case to the empty list, the same as an absent key.
- `get_timestamps` uses non-const lookups that insert a null `timestamps` entry. No reader in the header can tell that entry from an absent one, so the model does not store it.
- The null padding left in the `wavenumbers` and `calibration` arrays is not modelled. Those arrays grow through `[index]` writes and reads, and every reader treats a null entry like a missing one. A failed `get_calibration_type` also leaves `{"type": null}` at its index. Every reader treats that placeholder like a missing entry too, so the model does not store it.
- A setter called after another setter on the same channel leaves that setter's stale `coefs`/`equ` key in the JSON entry. The typed descriptor replaces the whole entry. Only `save`/`load` could observe the difference.
- `get_ifov_*_size`, `get_channel_proj_metdata`, `get_timestamps`, `get_calibration_type`, `get_wavenumber` and the setters are modelled for in-range indices only. The model requires 0 ≤ index < channel count for the ifov and metadata getters, index ≥ -1 for `get_timestamps`, and index ≥ 0 for `get_calibration_type`, `get_wavenumber` and the setters. With no wavenumbers stored, `get_wavenumber(-1)` returns 0 without indexing, but the model does not cover that call. Outside those ranges (for example the ifov getters' default argument -1) the source indexes its containers out of range, and the model says nothing about that.
- `CompositeCfg.ToJson`: builds a fresh document. The source's `to_json` writes into the document it is given, which is fresh when called through the library.
- `CompositeCfg.ReadRecipe`: a `lut` without `lut_channels` is a `MissingKey` failure. In the source, `j["lut_channels"]` on a const document without that key is undefined behaviour in the JSON library, not an exception, so the model promises nothing about what the source does then.
- `CompositeCfg.FromJsonInto`: on failure it returns only the error. The source keeps the fields it had already assigned when the exception was thrown.
- AVHRR I/O and environment are left out: the file read loop and its end-of-file handling, `AVHRRReader` (channel images, line count), `repackBytesTo10bits`, `gac_mode`, the logger, progress, the UI, image writing and `saveJsonFile`. The line count is an input of `IdentifyPass`.
- The wall clock is left out. `time`, `gmtime` and `mktime` (with `tm_mday = 0`, the last day of the previous year) are replaced by the `lastYearClock` input of `DecodeLines`.
- Timestamps are integer milliseconds. The source divides by 1000.0 into a `double` of seconds, and that floating-point step is not modelled.
- `AvhrrIdentification.MostCommon`: the source's `most_common` (in `common/utils`) is not part of this model. The contract says only "a most frequent id" and does not fix which one is chosen on a tie.
- `plugins/goes_support/goes/hrit/data/lrit_data.h` holds segment assembler and live composer declarations with no visible behaviour. It also has a completion flag shared across threads and UI fields. The Fengyun MERSI-LL and Jason-3 AMR-2 module headers hold only module boilerplate.

## Findings

| source | as written | input that shows it | evidently intended | confidence | as-written member | corrected member |
|---|---|---|---|---|---|---|
| plugins/noaa_metop_support/noaa/instruments/avhrr/module_noaa_avhrr.cpp:184-200 | ids 13 and 15 are stored with name "NOAA-15" | most common spacecraft id 13 | "NOAA-18" and "NOAA-19", as the log lines and comments beside them say | high; not executed | `AvhrrIdentification.IdentifyAsWritten` (`AvhrrIdentification.AsWrittenMislabelsNoaa18`) | `AvhrrIdentification.Identify` (`AvhrrIdentification.IdentifyPassCorrected`) |
| plugins/noaa_metop_support/noaa/instruments/avhrr/module_noaa_avhrr.cpp:93 | `day_of_year * 86400` is computed in 32-bit `int` | day word 8 = 0xFFFF (day 32767); only a word outside the instrument's 10 bits reaches it | the product in `time_t` seconds | low (needs a corrupt word; signed overflow is undefined and wrap-around is assumed); not executed | `AvhrrTelemetry.TimestampMsAsWritten` (`AvhrrTelemetry.DayOverflowCounterexample`) | `AvhrrTelemetry.LineTimestampMs` (`AvhrrTelemetry.LineTimestampMsAsWritten` proves the two agree on 10-bit day words) |
