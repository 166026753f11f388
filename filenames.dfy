/** The naming conventions the pipeline relies on: FLEX product names
    `PRS_TD_<yyyymmdd>_<hhmmss>.nc`, the date and time tokens taken from them,
    and the date and time tokens of Sentinel-2 product folder names. */
module FileNames {
  import opened Values
  import opened Text

  const FlexPrefix: string := "PRS_TD_"
  const FlexSuffix: string := ".nc"

  /** The regular expression `^PRS_TD_\d{8}_\d{6}\.nc$` matched against the whole name. */
  predicate IsFlexName(s: string)
  {
    |s| == 25
    && s[..7] == FlexPrefix
    && AllDigits(s[7..15])
    && s[15] == '_'
    && AllDigits(s[15 + 1..22])
    && s[22..] == FlexSuffix
  }

  /** The FLEX product name for an 8-digit date and a 6-digit time. */
  function FlexName(date: string, time: string): string
  {
    FlexPrefix + date + "_" + time + FlexSuffix
  }

  /** `check_filename`: returns when the name follows the convention, raises ValueError otherwise. */
  function CheckFilename(name: string): (o: Outcome)
    ensures o.Fail? ==> o.error == ValueError
  {
    if IsFlexName(name) then Pass else Fail(ValueError)
  }

  /** Every name built from an 8-digit date and a 6-digit time passes `check_filename`. */
  lemma FlexNameAccepted(date: string, time: string)
    requires |date| == 8 && AllDigits(date)
    requires |time| == 6 && AllDigits(time)
    ensures CheckFilename(FlexName(date, time)) == Pass
  {
    var s := FlexName(date, time);
    assert s[..7] == FlexPrefix;
    assert s[7..15] == date;
    assert s[16..22] == time;
    assert s[22..] == FlexSuffix;
  }

  /** Every name that passes `check_filename` is the name of its own date and time tokens. */
  lemma AcceptedIsFlexName(name: string)
    requires CheckFilename(name) == Pass
    ensures name == FlexName(name[7..15], name[16..22])
  {
    var s := FlexName(name[7..15], name[16..22]);
    assert |s| == 25;
    forall i | 0 <= i < 25 ensures s[i] == name[i] {
      if i < 7 {
        assert s[i] == FlexPrefix[i] == name[..7][i];
      } else if i < 15 {
        assert s[i] == name[7..15][i - 7];
      } else if i == 15 {
      } else if i < 22 {
        assert s[i] == name[16..22][i - 16];
      } else {
        assert s[i] == FlexSuffix[i - 22] == name[22..][i - 22];
      }
    }
  }

  /** The date and time tokens of a name that passes `check_filename` are its
      8-digit and 6-digit fields. */
  lemma AcceptedTokens(name: string)
    requires CheckFilename(name) == Pass
    ensures FlexDateToken(name) == Ok(name[7..15]) && FlexTimeToken(name) == name[16..22]
    ensures |name[7..15]| == 8 && AllDigits(name[7..15]) && |name[16..22]| == 6 && AllDigits(name[16..22])
  {
    AcceptedIsFlexName(name);
    assert name[15 + 1..22] == name[16..22];
    FlexTokensRoundTrip(name[7..15], name[16..22]);
  }

  /** A name that fails `check_filename` raises ValueError. */
  lemma RejectedRaisesValueError(name: string)
    requires !IsFlexName(name)
    ensures CheckFilename(name) == Fail(ValueError)
  {
  }

  /** The fields `name.split('.')[0].split('_')`. */
  function StemFields(name: string): (fields: seq<string>)
    ensures |fields| >= 1
  {
    Split(BeforeFirst(name, '.'), '_')
  }

  /** `name.split('.')[0].split('_')[-2]`: IndexError when the stem has no '_'. */
  function FlexDateToken(name: string): (r: Result<string>)
    ensures r.Err? <==> |StemFields(name)| < 2
    ensures r.Ok? ==> '_' !in r.value && '.' !in r.value
  {
    var fields := StemFields(name);
    if |fields| < 2 then Err(IndexError)
    else
      FieldsHaveNoSeparators(name);
      Ok(fields[|fields| - 2])
  }

  /** `name.split('.')[0].split('_')[-1]`: the last field always exists. */
  function FlexTimeToken(name: string): (r: string)
    ensures '_' !in r && '.' !in r
  {
    FieldsHaveNoSeparators(name);
    var fields := StemFields(name);
    fields[|fields| - 1]
  }

  lemma FieldsHaveNoSeparators(name: string)
    ensures forall k :: 0 <= k < |StemFields(name)| ==> '_' !in StemFields(name)[k] && '.' !in StemFields(name)[k]
  {
    var stem := BeforeFirst(name, '.');
    SplitPiecesHaveNoSeparator(name, '.');
    SplitPiecesHaveNoSeparator(stem, '_');
    forall k | 0 <= k < |Split(stem, '_')| ensures '.' !in Split(stem, '_')[k] {
      SplitPieceIsSubstring(stem, '_', k);
    }
  }

  /** Each piece of a split is made of characters of the split string. */
  lemma {:induction false} SplitPieceIsSubstring(s: string, sep: char, k: nat)
    requires k < |Split(s, sep)|
    ensures forall c :: c in Split(s, sep)[k] ==> c in s
    decreases |s|
  {
    if |s| > 0 {
      var rest := Split(s[1..], sep);
      if s[0] == sep {
        if k > 0 { SplitPieceIsSubstring(s[1..], sep, k - 1); }
      } else if k == 0 {
        SplitPieceIsSubstring(s[1..], sep, 0);
      } else {
        SplitPieceIsSubstring(s[1..], sep, k);
      }
    }
  }

  /** The date and time tokens of a well-formed FLEX name are the date and time it was built from. */
  lemma {:induction false} FlexTokensRoundTrip(date: string, time: string)
    requires |date| == 8 && AllDigits(date)
    requires |time| == 6 && AllDigits(time)
    ensures FlexDateToken(FlexName(date, time)) == Ok(date)
    ensures FlexTimeToken(FlexName(date, time)) == time
  {
    var name := FlexName(date, time);
    var stem := "PRS_TD_" + date + "_" + time;
    FlexStem(date, time);
    FlexStemFields(date, time);
    assert StemFields(name) == ["PRS", "TD", date, time];
  }

  /** The stem of a FLEX name, before its only '.', is everything but ".nc". */
  lemma FlexStem(date: string, time: string)
    requires AllDigits(date) && AllDigits(time)
    ensures BeforeFirst(FlexName(date, time), '.') == "PRS_TD_" + date + "_" + time
  {
    var stem := "PRS_TD_" + date + "_" + time;
    DigitsHaveNoSeparator(date);
    DigitsHaveNoSeparator(time);
    assert '.' !in stem by {
      forall i | 0 <= i < |stem| ensures stem[i] != '.' {
        if 7 <= i < 7 + |date| { assert stem[i] == date[i - 7]; }
        else if 8 + |date| <= i { assert stem[i] == time[i - 8 - |date|]; }
      }
    }
    calc {
      Split(FlexName(date, time), '.');
      { assert FlexName(date, time) == stem + ['.'] + "nc"; }
      Split(stem + ['.'] + "nc", '.');
      { SplitAround(stem, "nc", '.'); }
      Split(stem, '.') + Split("nc", '.');
      { SplitWithoutSeparator(stem, '.'); SplitWithoutSeparator("nc", '.'); }
      [stem, "nc"];
    }
  }

  /** The stem of a FLEX name has the four '_' fields "PRS", "TD", the date and the time. */
  lemma FlexStemFields(date: string, time: string)
    requires AllDigits(date) && AllDigits(time)
    ensures Split("PRS_TD_" + date + "_" + time, '_') == ["PRS", "TD", date, time]
  {
    DigitsHaveNoSeparator(date);
    DigitsHaveNoSeparator(time);
    calc {
      Split("PRS_TD_" + date + "_" + time, '_');
      { assert "PRS_TD_" + date + "_" + time == "PRS" + ['_'] + ("TD" + ['_'] + (date + ['_'] + time)); }
      Split("PRS" + ['_'] + ("TD" + ['_'] + (date + ['_'] + time)), '_');
      { SplitAround("PRS", "TD" + ['_'] + (date + ['_'] + time), '_'); SplitWithoutSeparator("PRS", '_'); }
      ["PRS"] + Split("TD" + ['_'] + (date + ['_'] + time), '_');
      { SplitAround("TD", date + ['_'] + time, '_'); SplitWithoutSeparator("TD", '_'); }
      ["PRS"] + (["TD"] + Split(date + ['_'] + time, '_'));
      { SplitAround(date, time, '_'); SplitWithoutSeparator(date, '_'); SplitWithoutSeparator(time, '_'); }
      ["PRS"] + (["TD"] + ([date] + [time]));
      ["PRS", "TD", date, time];
    }
  }

  lemma DigitsHaveNoSeparator(s: string)
    requires AllDigits(s)
    ensures '_' !in s && '.' !in s && 'T' !in s
  {
  }

  /** `name.split('_')[2].split('T')[0]`, the date part of a Sentinel-2 product
      name: IndexError when the name has fewer than three '_' fields. */
  function S2DateToken(name: string): (r: Result<string>)
    ensures r.Err? <==> |Split(name, '_')| < 3
  {
    var fields := Split(name, '_');
    if |fields| < 3 then Err(IndexError) else Ok(Split(fields[2], 'T')[0])
  }

  /** `name.split('_')[2].split('T')[1]`, the time part of a Sentinel-2 product
      name: IndexError when that field has no 'T'. */
  function S2TimeToken(name: string): (r: Result<string>)
    ensures r.Err? <==> |Split(name, '_')| < 3 || |Split(Split(name, '_')[2], 'T')| < 2
  {
    var fields := Split(name, '_');
    if |fields| < 3 then Err(IndexError)
    else
      var parts := Split(fields[2], 'T');
      if |parts| < 2 then Err(IndexError) else Ok(parts[1])
  }

  /** A Sentinel-2 product name `<mission>_<level>_<date>T<time>_<rest>` yields
      its date and time tokens. */
  lemma {:induction false} S2TokensOfProductName(mission: string, level: string, date: string, time: string, rest: string)
    requires '_' !in mission && '_' !in level
    requires AllDigits(date) && AllDigits(time)
    ensures S2DateToken(mission + "_" + level + "_" + date + "T" + time + "_" + rest) == Ok(date)
    ensures S2TimeToken(mission + "_" + level + "_" + date + "T" + time + "_" + rest) == Ok(time)
  {
    var field := date + ['T'] + time;
    var name := mission + "_" + level + "_" + date + "T" + time + "_" + rest;
    ProductNameFields(mission, level, date, time, rest);
    assert Split(name, '_')[2] == field;
    DateTimeField(date, time);
  }

  /** The third '_' field of a Sentinel-2 product name is `<date>T<time>`. */
  lemma ProductNameFields(mission: string, level: string, date: string, time: string, rest: string)
    requires '_' !in mission && '_' !in level
    requires AllDigits(date) && AllDigits(time)
    ensures Split(mission + "_" + level + "_" + date + "T" + time + "_" + rest, '_')
            == [mission, level, date + ['T'] + time] + Split(rest, '_')
  {
    DigitsHaveNoSeparator(date);
    DigitsHaveNoSeparator(time);
    var field := date + ['T'] + time;
    assert '_' !in field by {
      forall i | 0 <= i < |field| ensures field[i] != '_' {
        if i < |date| { assert field[i] == date[i]; }
        else if i > |date| { assert field[i] == time[i - |date| - 1]; }
      }
    }
    calc {
      Split(mission + "_" + level + "_" + date + "T" + time + "_" + rest, '_');
      { assert mission + "_" + level + "_" + date + "T" + time + "_" + rest
               == mission + ['_'] + (level + ['_'] + (field + ['_'] + rest)); }
      Split(mission + ['_'] + (level + ['_'] + (field + ['_'] + rest)), '_');
      { SplitAround(mission, level + ['_'] + (field + ['_'] + rest), '_'); SplitWithoutSeparator(mission, '_'); }
      [mission] + Split(level + ['_'] + (field + ['_'] + rest), '_');
      { SplitAround(level, field + ['_'] + rest, '_'); SplitWithoutSeparator(level, '_'); }
      [mission] + ([level] + Split(field + ['_'] + rest, '_'));
      { SplitAround(field, rest, '_'); SplitWithoutSeparator(field, '_'); }
      [mission] + ([level] + ([field] + Split(rest, '_')));
      [mission, level, field] + Split(rest, '_');
    }
  }

  /** `<date>T<time>` splits at its 'T' into the date and the time. */
  lemma DateTimeField(date: string, time: string)
    requires AllDigits(date) && AllDigits(time)
    ensures Split(date + ['T'] + time, 'T') == [date, time]
  {
    DigitsHaveNoSeparator(date);
    DigitsHaveNoSeparator(time);
    SplitAround(date, time, 'T');
    SplitWithoutSeparator(date, 'T');
    SplitWithoutSeparator(time, 'T');
  }
}
