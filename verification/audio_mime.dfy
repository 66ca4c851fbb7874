/** `parse_audio_mime_type`: a lenient reader of the bit depth and sample rate
    in an audio MIME type such as `audio/L16;rate=24000` (the `audio/L16`
    form of RFC 2586, section 4). */
module AudioMime {
  import opened Results
  import opened PyText

  /** The two numbers the parser extracts. */
  datatype AudioParams = AudioParams(bitsPerSample: nat, rate: nat)

  const DEFAULT_BITS_PER_SAMPLE: nat := 16
  const DEFAULT_RATE: nat := 24000

  const Defaults := AudioParams(DEFAULT_BITS_PER_SAMPLE, DEFAULT_RATE)

  /** Which of the two numbers a parameter sets. */
  datatype Key = BitsPerSample | Rate

  function Get(p: AudioParams, key: Key): nat
  {
    match key
    case BitsPerSample => p.bitsPerSample
    case Rate => p.rate
  }

  /** The value a `;`-separated parameter well-formedly carries for `key`, if
      any: after stripping whitespace, a `rate=` prefix in any letter case
      followed by decimal digits sets the rate, and an `audio/L` prefix in
      exactly that case followed by decimal digits sets the bit depth. */
  function Setting(key: Key, raw: string): Option<nat>
  {
    StrippedSetting(key, Strip(raw))
  }

  /** `Setting` for a parameter already stripped of whitespace. */
  function StrippedSetting(key: Key, param: string): Option<nat>
  {
    match key
    case Rate => if |param| >= 5 && Lower(param[..5]) == "rate=" then ParseInt(param[5..]) else None
    case BitsPerSample => if StartsWith(param, "audio/L") then ParseInt(param[7..]) else None
  }

  /** One iteration of the parser's loop over the parameters, written as the
      source branches: a matching parameter whose value parses overwrites
      the corresponding number; anything else leaves both unchanged. */
  function ApplyParam(acc: AudioParams, raw: string): (r: AudioParams)
    ensures r.rate == Setting(Rate, raw).ValueOr(acc.rate)
    ensures r.bitsPerSample == Setting(BitsPerSample, raw).ValueOr(acc.bitsPerSample)
  {
    var param := Strip(raw);
    if StartsWith(Lower(param), "rate=") then
      RateBranch(param);
      match AfterFirst(param, '=')
      case None => acc
      case Some(v) =>
        match ParseInt(v)
        case None => acc
        case Some(n) => acc.(rate := n)
    else if StartsWith(param, "audio/L") then
      BitsBranch(param);
      match AfterFirst(param, 'L')
      case None => acc
      case Some(v) =>
        match ParseInt(v)
        case None => acc
        case Some(n) => acc.(bitsPerSample := n)
    else
      OtherBranch(param);
      acc
  }

  /** A parameter whose lower-cased form starts with `rate=`: its first `=`
      is the fifth character, so `split("=", 1)[1]` is the rest after it;
      it sets the rate to that rest read as a number, and no bit depth. */
  lemma RateBranch(param: string)
    requires StartsWith(Lower(param), "rate=")
    ensures AfterFirst(param, '=') == Some(param[5..])
    ensures StrippedSetting(Rate, param) == ParseInt(param[5..])
    ensures StrippedSetting(BitsPerSample, param).None?
  {
    LowerPrefix(param, 5);
    assert forall i :: 0 <= i < 5 ==> AsciiLower(param[i]) == "rate="[i];
    AfterFirstAt(param, '=', 4);
    assert param[0] == 'r' || param[0] == 'R';
    assert !StartsWith(param, "audio/L") by {
      if |param| >= 7 {
        assert param[..7][0] == param[0];
      }
    }
  }

  /** A parameter starting with `audio/L` (and not with `rate=` in any case):
      its first `L` is the seventh character, so `split("L", 1)[1]` is the
      rest after it; it sets the bit depth to that rest read as a number,
      and no rate. */
  lemma BitsBranch(param: string)
    requires StartsWith(param, "audio/L")
    ensures AfterFirst(param, 'L') == Some(param[7..])
    ensures StrippedSetting(BitsPerSample, param) == ParseInt(param[7..])
    ensures StrippedSetting(Rate, param).None?
  {
    assert param[..7] == "audio/L";
    AfterFirstAt(param, 'L', 6);
    assert Lower(param[..5])[0] == 'a';
  }

  /** A parameter matching neither prefix sets nothing. */
  lemma OtherBranch(param: string)
    requires !StartsWith(Lower(param), "rate=") && !StartsWith(param, "audio/L")
    ensures StrippedSetting(Rate, param).None? && StrippedSetting(BitsPerSample, param).None?
  {
    if |param| >= 5 {
      LowerPrefix(param, 5);
    }
  }

  /** The parameters in order, folded through `ApplyParam` from `acc`. */
  function ApplyAll(acc: AudioParams, params: seq<string>): AudioParams
    decreases |params|
  {
    if |params| == 0 then acc
    else ApplyParam(ApplyAll(acc, params[..|params| - 1]), params[|params| - 1])
  }

  /** `parse_audio_mime_type(mime_type)`: the defaults, then every
      `;`-separated parameter applied in order. */
  function ParseAudioMimeType(mime: string): AudioParams
  {
    ApplyAll(Defaults, Split(mime, ';'))
  }

  // ---------------------------------------------------------------------
  // A reference definition: the last well-formed occurrence wins.

  /** The value of the last parameter in `params` that well-formedly sets `key`. */
  function LastSetting(key: Key, params: seq<string>): Option<nat>
    decreases |params|
  {
    if |params| == 0 then None
    else
      match Setting(key, params[|params| - 1])
      case Some(v) => Some(v)
      case None => LastSetting(key, params[..|params| - 1])
  }

  /** Folding the parameters yields, for each number, the last well-formed
      setting, or the starting value when there is none. */
  lemma {:induction false} ApplyAllIsLastSetting(key: Key, acc: AudioParams, params: seq<string>)
    ensures Get(ApplyAll(acc, params), key) == LastSetting(key, params).ValueOr(Get(acc, key))
    decreases |params|
  {
    if |params| > 0 {
      ApplyAllIsLastSetting(key, acc, params[..|params| - 1]);
    }
  }

  /** `LastSetting` is the setting at index `i` when no later parameter is well-formed. */
  lemma {:induction false} LastSettingAt(key: Key, params: seq<string>, i: nat)
    requires i < |params| && Setting(key, params[i]).Some?
    requires forall j :: i < j < |params| ==> Setting(key, params[j]).None?
    ensures LastSetting(key, params) == Setting(key, params[i])
    decreases |params|
  {
    if i < |params| - 1 {
      var init := params[..|params| - 1];
      assert init[i] == params[i];
      assert forall j :: i < j < |init| ==> init[j] == params[j];
      assert Setting(key, params[|params| - 1]).None?;
      assert LastSetting(key, params) == LastSetting(key, init);
      LastSettingAt(key, init, i);
    }
  }

  /** `LastSetting` is `None` when no parameter is well-formed. */
  lemma {:induction false} LastSettingNone(key: Key, params: seq<string>)
    requires forall j :: 0 <= j < |params| ==> Setting(key, params[j]).None?
    ensures LastSetting(key, params).None?
    decreases |params|
  {
    if |params| > 0 {
      var init := params[..|params| - 1];
      assert forall j :: 0 <= j < |init| ==> init[j] == params[j];
      LastSettingNone(key, init);
    }
  }

  /** When the `i`-th parameter well-formedly sets `key` and no later one
      does, the parser reports that parameter's value, whatever came before. */
  lemma LastWellFormedWins(mime: string, key: Key, i: nat)
    requires i < |Split(mime, ';')|
    requires Setting(key, Split(mime, ';')[i]).Some?
    requires forall j :: i < j < |Split(mime, ';')| ==> Setting(key, Split(mime, ';')[j]).None?
    ensures Get(ParseAudioMimeType(mime), key) == Setting(key, Split(mime, ';')[i]).value
  {
    ApplyAllIsLastSetting(key, Defaults, Split(mime, ';'));
    LastSettingAt(key, Split(mime, ';'), i);
  }

  /** When no parameter well-formedly sets `key`, the parser reports the
      default: 16 bits per sample, 24000 Hz. */
  lemma DefaultWhenNoneWellFormed(mime: string, key: Key)
    requires forall j :: 0 <= j < |Split(mime, ';')| ==> Setting(key, Split(mime, ';')[j]).None?
    ensures Get(ParseAudioMimeType(mime), key) == Get(Defaults, key)
    ensures key == Rate ==> ParseAudioMimeType(mime).rate == 24000
    ensures key == BitsPerSample ==> ParseAudioMimeType(mime).bitsPerSample == 16
  {
    ApplyAllIsLastSetting(key, Defaults, Split(mime, ';'));
    LastSettingNone(key, Split(mime, ';'));
  }

  /** Appending one more parameter `p`: a well-formed value overrides what
      was parsed before, and a malformed or unrelated one leaves it as it
      was (it does not reset it to the default). */
  lemma AppendedParamOverrides(mime: string, p: string, key: Key)
    requires ';' !in p
    ensures Get(ParseAudioMimeType(mime + ";" + p), key)
         == Setting(key, p).ValueOr(Get(ParseAudioMimeType(mime), key))
  {
    SplitAppend(mime, ';', p);
    var ps := Split(mime, ';');
    assert (ps + [p])[..|ps|] == ps;
  }

  // ---------------------------------------------------------------------
  // The inverse: writing the parameters in the `audio/L16` form

  /** `audio/L<bits>;rate=<rate>`, the form the parser is written for. */
  function FormatAudioMimeType(p: AudioParams): string
  {
    "audio/L" + FormatInt(p.bitsPerSample) + ";rate=" + FormatInt(p.rate)
  }

  /** Digits carry no whitespace and no separator. */
  lemma DigitsArePlain(s: string)
    requires |s| > 0 && AllDigits(s)
    ensures !IsSpace(s[|s| - 1])
    ensures ';' !in s
  {
  }

  /** A key followed by a formatted number is a parameter `strip()` keeps whole. */
  lemma KeyedNumber(key: string, n: nat)
    requires |key| > 0 && !IsSpace(key[0])
    ensures Strip(key + FormatInt(n)) == key + FormatInt(n)
    ensures (key + FormatInt(n))[..|key|] == key
    ensures (key + FormatInt(n))[|key|..] == FormatInt(n)
    ensures ParseInt(FormatInt(n)) == Some(n)
  {
    var digits := FormatInt(n);
    var param := key + digits;
    DigitsArePlain(digits);
    assert param[|param| - 1] == digits[|digits| - 1];
    StripUnpadded(param);
    ParseFormatInt(n);
  }

  /** `audio/L<bits>` sets the bit depth and not the rate. */
  lemma BitsParamSettings(bits: nat)
    ensures Setting(BitsPerSample, "audio/L" + FormatInt(bits)) == Some(bits)
    ensures Setting(Rate, "audio/L" + FormatInt(bits)) == None
  {
    var param := "audio/L" + FormatInt(bits);
    KeyedNumber("audio/L", bits);
    BitsBranch(param);
  }

  /** `rate=<rate>` sets the rate and not the bit depth. */
  lemma RateParamSettings(rate: nat)
    ensures Setting(Rate, "rate=" + FormatInt(rate)) == Some(rate)
    ensures Setting(BitsPerSample, "rate=" + FormatInt(rate)) == None
  {
    assert Lower("rate=") == "rate=";
    RateKeyAnyCase("rate=", rate);
  }

  /** The formatted type splits into its two parameters. */
  lemma SplitFormatted(p: AudioParams)
    ensures Split(FormatAudioMimeType(p), ';')
         == ["audio/L" + FormatInt(p.bitsPerSample), "rate=" + FormatInt(p.rate)]
  {
    var bits, rate := FormatInt(p.bitsPerSample), FormatInt(p.rate);
    var first, second := "audio/L" + bits, "rate=" + rate;
    DigitsArePlain(bits);
    DigitsArePlain(rate);
    assert FormatAudioMimeType(p) == first + ";" + second;
    assert ';' !in first by {
      assert forall i :: 0 <= i < |bits| ==> first[7 + i] == bits[i];
    }
    assert ';' !in second by {
      assert forall i :: 0 <= i < |rate| ==> second[5 + i] == rate[i];
    }
    SplitWithoutSep(first, ';');
    SplitAppend(first, ';', second);
  }

  /** Parsing the formatted parameters gives them back. */
  lemma ParseFormatAudioMimeType(p: AudioParams)
    ensures ParseAudioMimeType(FormatAudioMimeType(p)) == p
  {
    var first, second := "audio/L" + FormatInt(p.bitsPerSample), "rate=" + FormatInt(p.rate);
    SplitFormatted(p);
    BitsParamSettings(p.bitsPerSample);
    RateParamSettings(p.rate);
    var params := [first, second];
    assert params[..1] == [first] && params[..1][..0] == [];
    assert ApplyAll(Defaults, params) == ApplyParam(ApplyParam(Defaults, first), second);
  }

  /** Whitespace around a parameter does not change what it sets. */
  lemma SettingIgnoresPadding(key: Key, pre: string, raw: string, post: string)
    requires forall i :: 0 <= i < |pre| ==> IsSpace(pre[i])
    requires forall i :: 0 <= i < |post| ==> IsSpace(post[i])
    requires |raw| > 0 && !IsSpace(raw[0]) && !IsSpace(raw[|raw| - 1])
    ensures Setting(key, pre + raw + post) == Setting(key, raw)
  {
    StripRemovesPadding(pre, raw, post);
    StripUnpadded(raw);
  }

  /** The `rate=` key matches in any mixture of letter case. */
  lemma RateKeyAnyCase(key: string, rate: nat)
    requires |key| == 5 && Lower(key) == "rate="
    ensures Setting(Rate, key + FormatInt(rate)) == Some(rate)
    ensures Setting(BitsPerSample, key + FormatInt(rate)) == None
  {
    var param := key + FormatInt(rate);
    assert Lower(key)[0] == 'r';
    assert key[0] == 'r' || key[0] == 'R';
    KeyedNumber(key, rate);
    LowerPrefix(param, 5);
    assert param[..5] == key;
    RateBranch(param);
  }

  /** The `audio/L` key matches in exactly that case: any other spelling of
      it leaves the bit depth unset. */
  lemma BitsKeyExactCase(key: string, rest: string)
    requires |key| == 7 && key != "audio/L"
    requires |key + rest| > 0 ==> !IsSpace((key + rest)[0]) && !IsSpace((key + rest)[|key + rest| - 1])
    ensures Setting(BitsPerSample, key + rest).None?
  {
    StripUnpadded(key + rest);
    assert (key + rest)[..7] == key;
  }

  /** The canonical `audio/L16;rate=24000` reads as 16 bits at 24000 Hz. */
  lemma CanonicalExample()
    ensures ParseAudioMimeType("audio/L16;rate=24000") == AudioParams(16, 24000)
  {
    assert FormatInt(1) == "1" && FormatInt(16) == "16";
    assert FormatInt(2) == "2" && FormatInt(24) == "24" && FormatInt(240) == "240";
    assert FormatInt(2400) == "2400" && FormatInt(24000) == "24000";
    assert FormatAudioMimeType(AudioParams(16, 24000)) == "audio/L16;rate=24000";
    ParseFormatAudioMimeType(AudioParams(16, 24000));
  }
}
