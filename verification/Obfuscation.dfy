/** The obfuscation settings of a connection (obf.go, and awg31Strings in awg31.go). */
module Obfuscation {
  import opened Wrappers
  import opened Text
  import opened Ranges

  datatype Obf = Obf(
    jc: int, jmin: int, jmax: int,
    s1: int, s2: int, s3: int, s4: int,
    h1: string, h2: string, h3: string, h4: string,
    i1: string, i2: string, i3: string, i4: string, i5: string,
    headerProtectionKey: string,
    contentPaddingAddition: string, rekeyAfterTime: string, rekeyTimeout: string,
    rejectAfterTime: string, keepaliveTimeout: string, maxHandshakeAttempts: string,
    randomTrailers: bool, disableCookies: bool)
  {
    function Headers(): seq<string> {
      [h1, h2, h3, h4]
    }

    /** The settings with a 16-bit range (awg31Strings). */
    function Timings(): seq<string> {
      [contentPaddingAddition, rekeyAfterTime, rekeyTimeout, rejectAfterTime, keepaliveTimeout, maxHandshakeAttempts]
    }

    function Packets(): seq<string> {
      [i1, i2, i3, i4, i5]
    }

    /** No value has spaces around it. */
    predicate AllTrimmed() {
      && (forall i :: 0 <= i < |Headers()| ==> Trimmed(Headers()[i]))
      && (forall i :: 0 <= i < |Packets()| ==> Trimmed(Packets()[i]))
      && (forall i :: 0 <= i < |Timings()| ==> Trimmed(Timings()[i]))
      && Trimmed(headerProtectionKey)
    }
  }

  function NormalHeader(h: string, default: string): string {
    WireRange(if h == "" then default else h, 32)
  }

  function NormalTiming(t: string): string {
    if TrimSpace(t) != "" then WireRange(t, 16) else t
  }

  /** The method normalize. */
  function Normalized(o: Obf): Obf {
    o.(h1 := NormalHeader(o.h1, "1"), h2 := NormalHeader(o.h2, "2"),
       h3 := NormalHeader(o.h3, "3"), h4 := NormalHeader(o.h4, "4"),
       contentPaddingAddition := NormalTiming(o.contentPaddingAddition),
       rekeyAfterTime := NormalTiming(o.rekeyAfterTime),
       rekeyTimeout := NormalTiming(o.rekeyTimeout),
       rejectAfterTime := NormalTiming(o.rejectAfterTime),
       keepaliveTimeout := NormalTiming(o.keepaliveTimeout),
       maxHandshakeAttempts := NormalTiming(o.maxHandshakeAttempts))
  }

  /** Some value matches both headers. */
  predicate Overlap(a: string, b: string) {
    var x, y := NumericRange(a, 32), NumericRange(b, 32);
    x.Some? && y.Some? && x.value.low <= y.value.high && y.value.low <= x.value.high
  }

  /** Validate finds nothing; `packet` and `key` are the checks of packet templates and of keys. */
  predicate Valid(o: Obf, packet: string -> bool, key: string -> bool) {
    && 0 <= o.jc <= 128
    && 0 <= o.jmin <= o.jmax <= 1280
    && 0 <= o.s1 <= 1280 && 0 <= o.s2 <= 1280 && 0 <= o.s3 <= 1280 && 0 <= o.s4 <= 1280
    && (forall i :: 0 <= i < 4 ==> ValidHeader(o.Headers()[i]))
    && (forall i :: 0 <= i < 5 ==> TrimSpace(o.Packets()[i]) == "" || packet(o.Packets()[i]))
    && (forall i :: 0 <= i < 6 ==> TrimSpace(o.Timings()[i]) == "" || NumericRange(o.Timings()[i], 16).Some?)
    && (TrimSpace(o.headerProtectionKey) != "" ==>
          key(o.headerProtectionKey) && o.s1 >= 12 && o.s2 >= 12 && o.s3 >= 12 && o.s4 >= 12)
    && (forall i, j :: 0 <= j < i < 4 ==> !Overlap(o.Headers()[i], o.Headers()[j]))
  }

  /** What a header or timing stands for. */
  lemma NormalFormsKeepTheirMeaning(h: string, default: string, t: string)
    ensures h != "" ==> NumericRange(NormalHeader(h, default), 32) == NumericRange(h, 32)
    ensures NumericRange(NormalTiming(t), 16) == NumericRange(t, 16)
  {
    hide TrimSpace, NumericRange, WireRange;
    WireRangeKeepsInterval(h, 32);
    WireRangeKeepsInterval(t, 16);
  }

  predicate SpacesOnly(s: string) {
    s != "" && TrimSpace(s) == ""
  }

  /** A normal header stays, unless it was nothing but spaces: those leave an empty header, which the next round fills in. */
  lemma NormalHeaderIsFixed(h: string, default: string)
    requires default in ["1", "2", "3", "4"]
    ensures NormalHeader(NormalHeader(h, default), default) == NormalHeader(h, default) <==> !SpacesOnly(h)
  {
    hide TrimSpace, NumericRange;
    var given := if h == "" then default else h;
    WireRangeIsIdempotent(given, 32);
    TrimOfTrimmed(default);
    WireRangeBlank(given);
    WireRangeBlank(default);
  }

  lemma WireRangeBlank(s: string)
    ensures WireRange(s, 32) == "" <==> TrimSpace(s) == ""
  {
    hide TrimSpace, Decimal;
    if TrimSpace(s) == "" {
      BlankIsNoRange(s);
    }
  }

  lemma BlankIsNoRange(s: string)
    requires TrimSpace(s) == ""
    ensures NumericRange(s, 32).None?
  {
    HeadersAreRanges(s);
  }

  lemma NormalTimingIsFixed(t: string)
    ensures NormalTiming(NormalTiming(t)) == NormalTiming(t)
  {
    hide TrimSpace, NumericRange, WireRange;
    WireRangeIsIdempotent(t, 16);
  }

  /** Normalising twice is normalising once exactly when no header consists of spaces. */
  lemma NormalizedIsFixed(o: Obf)
    ensures Normalized(Normalized(o)) == Normalized(o) <==> forall i :: 0 <= i < 4 ==> !SpacesOnly(o.Headers()[i])
  {
    hide NormalHeader, NormalTiming, SpacesOnly;
    NormalHeaderIsFixed(o.h1, "1");
    NormalHeaderIsFixed(o.h2, "2");
    NormalHeaderIsFixed(o.h3, "3");
    NormalHeaderIsFixed(o.h4, "4");
    NormalTimingIsFixed(o.contentPaddingAddition);
    NormalTimingIsFixed(o.rekeyAfterTime);
    NormalTimingIsFixed(o.rekeyTimeout);
    NormalTimingIsFixed(o.rejectAfterTime);
    NormalTimingIsFixed(o.keepaliveTimeout);
    NormalTimingIsFixed(o.maxHandshakeAttempts);
    assert o.Headers()[0] == o.h1 && o.Headers()[1] == o.h2 && o.Headers()[2] == o.h3 && o.Headers()[3] == o.h4;
  }

  /** A header of one space: the first round empties it, the second fills it in. */
  lemma SpaceHeaderSettlesLate(o: Obf)
    requires o.h1 == " "
    ensures Normalized(o).h1 == "" && Normalized(Normalized(o)).h1 == "1"
    ensures Normalized(Normalized(o)) != Normalized(o)
  {
    hide NormalTiming, NumericRange;
    assert TrimSpace(" ") == "";
    BlankIsNoRange(" ");
    RangeReadsBack(1, 1, 32);
    assert Decimal(1) == "1";
  }
}
