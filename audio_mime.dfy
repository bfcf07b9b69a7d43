/**
 * `parse_audio_mime_type`: reads the bit depth and the sample rate out of an
 * audio MIME type such as `audio/L16;rate=24000`.
 *
 * The string is split on `;`. A segment whose lower-cased, stripped form
 * starts with `rate=` sets the rate to the integer after its first `=`; any
 * other segment whose stripped form starts with `audio/L` (case-sensitive)
 * sets the bit depth to the integer after its first `L`. A number Python's
 * `int` rejects leaves the value as it was. The defaults are 16 bits and
 * 24000 Hz.
 */
module AudioMime {
  import opened Wrappers
  import opened PyStr

  /** The dictionary `{"bits_per_sample": ..., "rate": ...}` the parser returns. */
  datatype AudioParams = AudioParams(bitsPerSample: int, rate: int)

  /** The two entries of the result. */
  datatype Param = BitsPerSample | Rate

  const DefaultBitsPerSample := 16
  const DefaultRate := 24000
  const Defaults := AudioParams(DefaultBitsPerSample, DefaultRate)

  function Get(p: AudioParams, which: Param): int
  {
    match which
    case BitsPerSample => p.bitsPerSample
    case Rate => p.rate
  }

  /** `param.lower().strip().startswith("rate=")`. */
  predicate IsRateSegment(param: string)
  {
    StartsWith(Strip(AsciiLower(param)), "rate=")
  }

  /** `param.strip().startswith("audio/L")`, tried only when the segment is not a rate segment. */
  predicate IsBitsSegment(param: string)
  {
    !IsRateSegment(param) && StartsWith(Strip(param), "audio/L")
  }

  /** `int(param.split(c, 1)[1])`, with `None` for every exception the bare `except` swallows. */
  function NumberAfter(param: string, c: char): Option<int>
  {
    match AfterFirst(param, c)
    case None => None
    case Some(tail) => ParseInt(tail)
  }

  /** The value one segment assigns to `which`, if it assigns one. */
  function SegmentValue(param: string, which: Param): Option<int>
  {
    match which
    case Rate => if IsRateSegment(param) then NumberAfter(param, '=') else None
    case BitsPerSample => if IsBitsSegment(param) then NumberAfter(param, 'L') else None
  }

  /** One turn of the loop over the segments. */
  function Step(p: AudioParams, param: string): AudioParams
  {
    AudioParams(SegmentValue(param, BitsPerSample).GetOr(p.bitsPerSample),
                SegmentValue(param, Rate).GetOr(p.rate))
  }

  /** The values after the loop has gone over `segs`, starting from the defaults. */
  function ParseSegments(segs: seq<string>): AudioParams
  {
    if segs == [] then Defaults
    else Step(ParseSegments(segs[..|segs| - 1]), segs[|segs| - 1])
  }

  /** What `parse_audio_mime_type(mime)` returns. */
  function MimeParams(mime: string): AudioParams
  {
    ParseSegments(Split(mime, ';'))
  }

  /** One more segment is one more `Step`. */
  lemma ParseNextSegment(segs: seq<string>, i: nat)
    requires i < |segs|
    ensures ParseSegments(segs[..i + 1]) == Step(ParseSegments(segs[..i]), segs[i])
  {
    assert segs[..i + 1][..i] == segs[..i];
  }

  /** The parser as the source runs it: a loop over the segments that reassigns two locals. */
  method ParseAudioMimeType(mime: string) returns (params: AudioParams)
    ensures params == MimeParams(mime)
  {
    var bitsPerSample := DefaultBitsPerSample;
    var rate := DefaultRate;
    var segs := Split(mime, ';');
    for i := 0 to |segs|
      invariant AudioParams(bitsPerSample, rate) == ParseSegments(segs[..i])
    {
      var param := segs[i];
      ParseNextSegment(segs, i);
      if IsRateSegment(param) {
        var n := NumberAfter(param, '=');
        if n.Some? {
          rate := n.value;
        }
      } else if StartsWith(Strip(param), "audio/L") {
        var n := NumberAfter(param, 'L');
        if n.Some? {
          bitsPerSample := n.value;
        }
      }
    }
    assert segs[..|segs|] == segs;
    params := AudioParams(bitsPerSample, rate);
  }

  // ---------------------------------------------------------------------------
  // What the parser promises
  // ---------------------------------------------------------------------------

  /**
   * The last segment that assigns a value to `which` decides it: whatever
   * came before is overridden, and the segments after it that assign nothing
   * (unrecognised ones, and recognised ones whose number does not parse) keep it.
   */
  lemma {:induction false} LastAssignmentWins(segs: seq<string>, which: Param, k: nat, v: int)
    requires k < |segs| && SegmentValue(segs[k], which) == Some(v)
    requires forall j :: k < j < |segs| ==> SegmentValue(segs[j], which).None?
    ensures Get(ParseSegments(segs), which) == v
  {
    var init := segs[..|segs| - 1];
    if k < |segs| - 1 {
      forall j | k < j < |init| ensures SegmentValue(init[j], which).None? {
        assert init[j] == segs[j];
      }
      LastAssignmentWins(init, which, k, v);
    }
  }

  /** When no segment assigns a value to `which`, it keeps its default. */
  lemma {:induction false} NoAssignmentKeepsDefault(segs: seq<string>, which: Param)
    requires forall j :: 0 <= j < |segs| ==> SegmentValue(segs[j], which).None?
    ensures Get(ParseSegments(segs), which) == Get(Defaults, which)
  {
    if segs != [] {
      var init := segs[..|segs| - 1];
      forall j | 0 <= j < |init| ensures SegmentValue(init[j], which).None? {
        assert init[j] == segs[j];
      }
      NoAssignmentKeepsDefault(init, which);
    }
  }

  /**
   * A MIME type none of whose segments is a rate segment or starts with
   * `audio/L` gives 16 bits and 24000 Hz.
   */
  lemma UnrecognisedMimeGivesDefaults(mime: string)
    requires forall seg :: seg in Split(mime, ';') ==> !IsRateSegment(seg) && !StartsWith(Strip(seg), "audio/L")
    ensures MimeParams(mime) == AudioParams(16, 24000)
  {
    var segs := Split(mime, ';');
    assert forall j :: 0 <= j < |segs| ==> segs[j] in segs;
    NoAssignmentKeepsDefault(segs, BitsPerSample);
    NoAssignmentKeepsDefault(segs, Rate);
  }

  /** A segment that assigns nothing (unrecognised, or a number `int` rejects) leaves both values as they were. */
  lemma SilentSegmentKeepsValues(segs: seq<string>, param: string)
    requires SegmentValue(param, BitsPerSample).None? && SegmentValue(param, Rate).None?
    ensures ParseSegments(segs + [param]) == ParseSegments(segs)
  {
    assert (segs + [param])[..|segs|] == segs;
  }

  /** A recognised segment whose number does not parse is silent, as the bare `except: pass` makes it. */
  lemma UnparsableNumberIsSilent(param: string)
    requires IsRateSegment(param) ==> NumberAfter(param, '=').None?
    requires IsBitsSegment(param) ==> NumberAfter(param, 'L').None?
    ensures SegmentValue(param, BitsPerSample).None? && SegmentValue(param, Rate).None?
  {
  }

  // Concrete segments, one fact per lemma so that each proof stays small.

  lemma LowerL16()
    ensures AsciiLower("audio/L16") == "audio/l16"
  {
    assert LowerChar('L') == 'l';
    assert forall c :: c in "audio/16" ==> LowerChar(c) == c;
  }

  lemma L16NotRate()
    ensures !IsRateSegment("audio/L16")
  {
    LowerL16();
    StripNoSpace("audio/l16");
  }

  lemma L16IsBits()
    ensures IsBitsSegment("audio/L16")
  {
    L16NotRate();
    StripNoSpace("audio/L16");
  }

  lemma L16Tail()
    ensures AfterFirst("audio/L16", 'L') == Some("16")
  {
    var prefix := "audio/";
    assert 'L' !in prefix;
    assert "audio/L16" == prefix + ['L'] + "16";
    AfterFirstAt(prefix, 'L', "16");
  }

  lemma ParseSixteen()
    ensures ParseInt("16") == Some(16)
  {
    assert Decimal(1) == "1";
    assert Decimal(16) == Decimal(1) + [DigitChar(6)] == "16";
    ParseIntString(16);
  }

  lemma L16Number()
    ensures NumberAfter("audio/L16", 'L') == Some(16)
  {
    L16Tail();
    ParseSixteen();
  }

  /** `audio/L16` is a bit-depth segment that sets 16 bits and leaves the rate alone. */
  lemma L16Segment()
    ensures SegmentValue("audio/L16", Rate) == None
    ensures SegmentValue("audio/L16", BitsPerSample) == Some(16)
  {
    L16NotRate();
    L16IsBits();
    L16Number();
  }

  /**
   * A rate segment whose key spells `rate` in any mix of cases (`rate`, `RATE`,
   * `Rate`, ...) followed by `=N` sets the rate to `n` and nothing else, as long
   * as `N` has no more digits than `int` accepts.
   */
  lemma RateSegment(key: string, digits: string, n: nat)
    requires AsciiLower(key) == "rate"
    requires digits == Decimal(n) && |digits| <= MaxStrDigits
    ensures SegmentValue(key + "=" + digits, Rate) == Some(n)
    ensures SegmentValue(key + "=" + digits, BitsPerSample) == None
  {
    DecimalCharsArePlain(n);
    RateSegmentRecognised(key, digits);
    RateKeyHasNoEquals(key);
    RateNumber(key, digits, n);
  }

  /** A key that lower-cases to `rate` holds no `=`, since lower-casing keeps `=`. */
  lemma RateKeyHasNoEquals(key: string)
    requires AsciiLower(key) == "rate"
    ensures '=' !in key
  {
    forall i | 0 <= i < |key| ensures key[i] != '=' {
      assert AsciiLower(key)[i] == LowerChar(key[i]);
    }
  }

  /** The two spellings of the key used below. */
  lemma RateKeysLower()
    ensures AsciiLower("rate") == "rate" && AsciiLower("RATE") == "rate"
  {
    assert LowerChar('R') == 'r' && LowerChar('A') == 'a' && LowerChar('T') == 't' && LowerChar('E') == 'e';
    assert LowerChar('r') == 'r' && LowerChar('a') == 'a' && LowerChar('t') == 't' && LowerChar('e') == 'e';
  }

  /** Lower-casing twice is lower-casing once. */
  lemma LowerIdempotent(p: string)
    ensures AsciiLower(AsciiLower(p)) == AsciiLower(p)
  {
  }

  /** Whether a segment sets the rate does not depend on the case of its letters. */
  lemma RateMatchIgnoresCase(param: string)
    ensures IsRateSegment(param) == IsRateSegment(AsciiLower(param))
  {
    LowerIdempotent(param);
  }

  /**
   * The bit-depth match respects case: a segment whose stripped form starts
   * with `audio/l` (lower-case) never sets the bit depth.
   */
  lemma LowerCaseAudioPrefixIgnored(param: string)
    requires StartsWith(Strip(param), "audio/l")
    ensures SegmentValue(param, BitsPerSample) == None
  {
    assert Strip(param)[6] == 'l';
  }

  /** Digits are neither upper-case letters nor whitespace. */
  lemma DecimalCharsArePlain(n: nat)
    ensures forall c :: c in Decimal(n) ==> LowerChar(c) == c && !IsSpace(c)
  {
    var digits := Decimal(n);
    forall c | c in digits ensures LowerChar(c) == c && !IsSpace(c) {
      var i :| 0 <= i < |digits| && digits[i] == c;
      assert IsDigit(digits[i]);
    }
  }

  lemma RateNumber(key: string, digits: string, n: nat)
    requires '=' !in key
    requires digits == Decimal(n) && |digits| <= MaxStrDigits
    ensures NumberAfter(key + "=" + digits, '=') == Some(n)
  {
    assert key + "=" + digits == key + ['='] + digits;
    AfterFirstAt(key, '=', digits);
    ParseIntString(n);
  }

  lemma RateSegmentRecognised(key: string, digits: string)
    requires AsciiLower(key) == "rate"
    requires forall c :: c in digits ==> LowerChar(c) == c && !IsSpace(c)
    ensures IsRateSegment(key + "=" + digits)
  {
    var param := key + "=" + digits;
    var lowered := "rate=" + digits;
    assert AsciiLower(param) == lowered by {
      forall i | 0 <= i < |param| ensures AsciiLower(param)[i] == lowered[i] {
        if i < 4 {
          assert param[i] == key[i] && AsciiLower(key)[i] == LowerChar(key[i]);
        } else if i >= 5 {
          assert param[i] == digits[i - 5] && digits[i - 5] in digits;
        }
      }
    }
    if |digits| > 0 {
      assert digits[|digits| - 1] in digits;
    }
    StripNoSpace(lowered);
  }

  lemma Rate24000()
    ensures SegmentValue("rate=24000", Rate) == Some(24000) && SegmentValue("rate=24000", BitsPerSample) == None
  {
    assert "rate=24000" == "rate" + "=" + "24000";
    assert Decimal(24000) == "24000";
    RateKeysLower();
    RateSegment("rate", "24000", 24000);
  }

  lemma UpperRate8000()
    ensures SegmentValue("RATE=8000", Rate) == Some(8000) && SegmentValue("RATE=8000", BitsPerSample) == None
  {
    assert "RATE=8000" == "RATE" + "=" + "8000";
    assert Decimal(8000) == "8000";
    RateKeysLower();
    RateSegment("RATE", "8000", 8000);
  }

  lemma Rate8000()
    ensures SegmentValue("rate=8000", Rate) == Some(8000) && SegmentValue("rate=8000", BitsPerSample) == None
  {
    assert "rate=8000" == "rate" + "=" + "8000";
    assert Decimal(8000) == "8000";
    RateKeysLower();
    RateSegment("rate", "8000", 8000);
  }

  lemma Rate16000()
    ensures SegmentValue("rate=16000", Rate) == Some(16000) && SegmentValue("rate=16000", BitsPerSample) == None
  {
    assert "rate=16000" == "rate" + "=" + "16000";
    assert Decimal(16000) == "16000";
    RateKeysLower();
    RateSegment("rate", "16000", 16000);
  }

  /** Two segments joined by `;` split back into those two. */
  lemma SplitTwo(a: string, b: string)
    requires ';' !in a && ';' !in b
    ensures Split(a + ";" + b, ';') == [a, b]
  {
    assert a + ";" + b == a + [';'] + b;
    SplitCons(a, ';', b);
    SplitNoSeparator(b, ';');
  }

  /** A MIME type of two `;`-free segments: the second one's assignments on top of the first one's. */
  lemma TwoSegmentMime(a: string, b: string)
    requires ';' !in a && ';' !in b
    ensures MimeParams(a + ";" + b) == Step(Step(Defaults, a), b)
  {
    SplitTwo(a, b);
    TwoSegments(a, b);
  }

  /** The result for two segments: the second one's assignments on top of the first one's. */
  lemma TwoSegments(a: string, b: string)
    ensures ParseSegments([a, b]) == Step(Step(Defaults, a), b)
  {
    OneSegment(a);
    assert [a, b][..1] == [a];
  }

  lemma OneSegment(a: string)
    ensures ParseSegments([a]) == Step(Defaults, a)
  {
    assert [a][..0] == [];
  }

  /** The literal the generator passes, `audio/L16;rate=24000`, gives 16 bits and 24000 Hz. */
  lemma GeneratorMimeType()
    ensures MimeParams("audio/L16;rate=24000") == AudioParams(16, 24000)
  {
    var a, b := "audio/L16", "rate=24000";
    assert a + ";" + b == "audio/L16;rate=24000";
    TwoSegmentMime(a, b);
    L16Segment();
    Rate24000();
  }

  /** The `rate=` match ignores case: `audio/L16;RATE=8000` sets the rate to 8000. */
  lemma RateKeyIgnoresCase()
    ensures MimeParams("audio/L16;RATE=8000") == AudioParams(16, 8000)
  {
    var a, b := "audio/L16", "RATE=8000";
    assert a + ";" + b == "audio/L16;RATE=8000";
    TwoSegmentMime(a, b);
    L16Segment();
    UpperRate8000();
  }

  lemma LowerCaseL8NotRate()
    ensures !IsRateSegment("audio/l8")
  {
    assert AsciiLower("audio/l8") == "audio/l8" by {
      assert forall c :: c in "audio/l8" ==> LowerChar(c) == c;
    }
    StripNoSpace("audio/l8");
  }

  lemma LowerCaseL8NotBits()
    ensures !StartsWith(Strip("audio/l8"), "audio/L")
  {
    StripNoSpace("audio/l8");
    assert "audio/l8"[6] != 'L';
  }

  /** The `audio/L` match respects case: `audio/l8` is ignored and the defaults stay. */
  lemma BitsPrefixRespectsCase()
    ensures MimeParams("audio/l8") == AudioParams(16, 24000)
  {
    SplitNoSeparator("audio/l8", ';');
    OneSegment("audio/l8");
    LowerCaseL8NotRate();
    LowerCaseL8NotBits();
  }

  /** A later rate overrides an earlier one: `rate=8000;rate=16000` gives 16000 Hz. */
  lemma LaterRateOverrides()
    ensures MimeParams("rate=8000;rate=16000") == AudioParams(16, 16000)
  {
    var a, b := "rate=8000", "rate=16000";
    assert a + ";" + b == "rate=8000;rate=16000";
    TwoSegmentMime(a, b);
    Rate8000();
    Rate16000();
  }

  lemma UnparsableRateNumber()
    ensures NumberAfter("rate=fast", '=') == None
  {
    assert "rate=fast" == "rate" + ['='] + "fast";
    AfterFirstAt("rate", '=', "fast");
    FastIsNotANumber();
  }

  lemma FastIsNotANumber()
    ensures ParseInt("fast") == None
  {
    ParseIntRejects("fast");
  }

  lemma UnparsableRateRecognised()
    ensures IsRateSegment("rate=fast")
  {
    assert "rate=fast" == "rate" + "=" + "fast";
    RateSegmentRecognised("rate", "fast");
  }

  /**
   * A rate with more digits than `int` accepts keeps the default: for
   * `audio/L16;rate=` followed by 4301 digits, `int` raises and 24000 Hz stays.
   */
  lemma OverlongRateKeepsDefault(digits: string)
    requires IsDigitBody(digits) && DigitCount(digits) > MaxStrDigits
    ensures MimeParams("audio/L16;rate=" + digits) == AudioParams(16, 24000)
  {
    var a, b := "audio/L16", "rate=" + digits;
    assert a + ";" + b == "audio/L16;rate=" + digits;
    DigitBodyIsPlain(digits);
    assert ';' !in b by {
      assert b == "rate=" + digits;
    }
    TwoSegmentMime(a, b);
    L16Segment();
    OverlongRateSegment(digits);
  }

  /** Digits and underscores are neither upper-case letters, whitespace nor `;`. */
  lemma DigitBodyIsPlain(digits: string)
    requires IsDigitsOrUnderscores(digits)
    ensures forall c :: c in digits ==> LowerChar(c) == c && !IsSpace(c) && c != ';'
  {
    forall c | c in digits ensures LowerChar(c) == c && !IsSpace(c) && c != ';' {
      var i :| 0 <= i < |digits| && digits[i] == c;
    }
  }

  /** The over-long rate segment is recognised, but assigns nothing. */
  lemma OverlongRateSegment(digits: string)
    requires IsDigitBody(digits) && DigitCount(digits) > MaxStrDigits
    ensures SegmentValue("rate=" + digits, Rate) == None
    ensures SegmentValue("rate=" + digits, BitsPerSample) == None
  {
    DigitBodyIsPlain(digits);
    RateKeysLower();
    RateSegmentRecognised("rate", digits);
    assert "rate" + "=" + digits == "rate=" + digits;
    OverlongRateNumber(digits);
  }

  lemma OverlongRateNumber(digits: string)
    requires IsDigitBody(digits) && DigitCount(digits) > MaxStrDigits
    ensures NumberAfter("rate=" + digits, '=') == None
  {
    assert "rate=" + digits == "rate" + ['='] + digits;
    AfterFirstAt("rate", '=', digits);
    ParseIntDigitLimit("", digits);
    assert "" + digits == digits;
  }

  /** A rate whose number `int` rejects keeps the earlier value: `audio/L16;rate=fast` gives 24000 Hz. */
  lemma UnparsableRateKeepsDefault()
    ensures MimeParams("audio/L16;rate=fast") == AudioParams(16, 24000)
  {
    var a, b := "audio/L16", "rate=fast";
    assert a + ";" + b == "audio/L16;rate=fast";
    TwoSegmentMime(a, b);
    L16Segment();
    UnparsableRateNumber();
    UnparsableRateRecognised();
  }
}
