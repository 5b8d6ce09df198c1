/**
 * Identifying which NOAA KLM spacecraft produced an AVHRR pass: the most
 * frequent per-line spacecraft id is looked up in a table of supported
 * satellites, yielding the descriptor {scid, name, norad} later stages use.
 */
module AvhrrIdentification {
  import opened Wrappers

  /** The descriptor the decoder emits. `norad` is 0 for an unrecognised id. */
  datatype SatInfo = SatInfo(scid: int, name: string, norad: nat)

  /** A supported satellite: display name and NORAD catalog number. */
  datatype Spacecraft = Spacecraft(name: string, norad: nat)

  const UNKNOWN_NAME := "NOAA-UNKNOWN"

  /** The supported KLM satellites by spacecraft id (the others are decommissioned). */
  const SUPPORTED: map<int, Spacecraft> := map[
    7 := Spacecraft("NOAA-15", 25338),
    13 := Spacecraft("NOAA-18", 28654),
    15 := Spacecraft("NOAA-19", 33591)]

  /**
   * The identification chain as the decoder writes it: the catalog number
   * follows the id, but every recognised id is given the name "NOAA-15".
   */
  function IdentifyAsWritten(scid: int): (info: SatInfo)
    ensures info.scid == scid
    ensures info.norad == (if scid in SUPPORTED then SUPPORTED[scid].norad else 0)
    ensures info.name == (if scid in SUPPORTED then "NOAA-15" else UNKNOWN_NAME)
  {
    if scid == 7 then SatInfo(scid, "NOAA-15", 25338)
    else if scid == 13 then SatInfo(scid, "NOAA-15", 28654)
    else if scid == 15 then SatInfo(scid, "NOAA-15", 33591)
    else SatInfo(scid, UNKNOWN_NAME, 0)
  }

  /**
   * The identification chain with each satellite given its own name, as the
   * decoder's log messages and comments name them.
   */
  function Identify(scid: int): (info: SatInfo)
    ensures info.scid == scid
    ensures scid in SUPPORTED ==> info.name == SUPPORTED[scid].name && info.norad == SUPPORTED[scid].norad
    ensures scid !in SUPPORTED ==> info.name == UNKNOWN_NAME && info.norad == 0
  {
    if scid == 7 then SatInfo(scid, "NOAA-15", 25338)
    else if scid == 13 then SatInfo(scid, "NOAA-18", 28654)
    else if scid == 15 then SatInfo(scid, "NOAA-19", 33591)
    else SatInfo(scid, UNKNOWN_NAME, 0)
  }

  /** The two chains agree on id and catalog number and differ only in the name of ids 13 and 15. */
  lemma AsWrittenDiffersOnlyInName(scid: int)
    ensures IdentifyAsWritten(scid).scid == Identify(scid).scid
    ensures IdentifyAsWritten(scid).norad == Identify(scid).norad
    ensures IdentifyAsWritten(scid).name != Identify(scid).name <==> scid == 13 || scid == 15
  {
  }

  /** NOAA-18's id is reported with NOAA-18's catalog number under NOAA-15's name. */
  lemma AsWrittenMislabelsNoaa18()
    ensures IdentifyAsWritten(13).norad == 28654 == SUPPORTED[13].norad
    ensures IdentifyAsWritten(13).name == "NOAA-15" != SUPPORTED[13].name
  {
  }

  /**
   * A non-zero catalog number identifies the spacecraft id, and the name
   * always matches the catalog number, so the descriptor is self-consistent.
   */
  lemma IdentifyIsConsistent(a: int, b: int)
    ensures Identify(a).norad == 0 <==> a !in SUPPORTED
    ensures Identify(a).norad != 0 && Identify(a).norad == Identify(b).norad ==> a == b
    ensures Identify(a).norad == Identify(b).norad ==> Identify(a).name == Identify(b).name
  {
  }

  ///////////////////////// Majority vote over the per-line ids

  /**
   * A most frequent element of a non-empty list: it occurs, and no element
   * of the list occurs more often.
   */
  method MostCommon(s: seq<int>) returns (m: int)
    requires |s| > 0
    ensures m in s
    ensures forall k :: 0 <= k < |s| ==> multiset(s)[s[k]] <= multiset(s)[m]
  {
    m := s[0];
    var best := multiset(s)[m];
    var i := 1;
    while i < |s|
      invariant 1 <= i <= |s|
      invariant m in s && best == multiset(s)[m]
      invariant forall k :: 0 <= k < i ==> multiset(s)[s[k]] <= best
    {
      var c := multiset(s)[s[i]];
      if c > best {
        m, best := s[i], c;
      }
      i := i + 1;
    }
  }

  /** A value at least as frequent as every element of the list is at least as frequent as any value. */
  lemma MostFrequentAmongAllValues(s: seq<int>, m: int, x: int)
    requires forall k :: 0 <= k < |s| ==> multiset(s)[s[k]] <= multiset(s)[m]
    ensures multiset(s)[x] <= multiset(s)[m]
  {
    if x in s {
      var k :| 0 <= k < |s| && s[k] == x;
    }
  }

  /**
   * The identification step at the end of a pass, as the decoder writes it:
   * only when at least one line was decoded is the majority id looked up and
   * a descriptor produced.
   */
  method IdentifyPass(lines: nat, ids: seq<int>) returns (info: Option<SatInfo>)
    requires lines > 0 ==> |ids| > 0
    ensures info.Some? <==> lines > 0
    ensures info.Some? ==> info.value.scid in ids
    ensures info.Some? ==> forall x :: multiset(ids)[x] <= multiset(ids)[info.value.scid]
    ensures info.Some? ==> info.value == IdentifyAsWritten(info.value.scid)
  {
    if lines > 0 {
      var scid := MajorityId(ids);
      info := Some(IdentifyAsWritten(scid));
    } else {
      info := None;
    }
  }

  /** The same step with each satellite given its own name. */
  method IdentifyPassCorrected(lines: nat, ids: seq<int>) returns (info: Option<SatInfo>)
    requires lines > 0 ==> |ids| > 0
    ensures info.Some? <==> lines > 0
    ensures info.Some? ==> info.value.scid in ids
    ensures info.Some? ==> forall x :: multiset(ids)[x] <= multiset(ids)[info.value.scid]
    ensures info.Some? ==> info.value == Identify(info.value.scid)
  {
    if lines > 0 {
      var scid := MajorityId(ids);
      info := Some(Identify(scid));
    } else {
      info := None;
    }
  }

  /** A most common id of a non-empty list: no value at all occurs more often. */
  method MajorityId(ids: seq<int>) returns (scid: int)
    requires |ids| > 0
    ensures scid in ids
    ensures forall x :: multiset(ids)[x] <= multiset(ids)[scid]
  {
    scid := MostCommon(ids);
    forall x
      ensures multiset(ids)[x] <= multiset(ids)[scid]
    {
      MostFrequentAmongAllValues(ids, scid, x);
    }
  }
}
