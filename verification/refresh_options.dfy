/** The `refresh_rate` core option: the option strings the core advertises
    to the frontend, and the table that turns the frontend's selected
    display rate into a logic-tick multiplier. */
module RefreshOptions {
  import opened Common

  /** The nominal logic rate a core is built for (`CoreLogicRate`). */
  datatype CoreLogicRate = LogicRate60 | LogicRate120 | LogicRate720

  /** The enum discriminant: logic ticks per second. */
  function Hz(rate: CoreLogicRate): nat
  {
    match rate
    case LogicRate60 => 60
    case LogicRate120 => 120
    case LogicRate720 => 720
  }

  // ---------------------------------------------------------------------
  // Decimal labels
  // ---------------------------------------------------------------------

  predicate IsDigit(c: char)
  {
    '0' <= c <= '9'
  }

  predicate AllDigits(s: string)
  {
    forall i :: 0 <= i < |s| ==> IsDigit(s[i])
  }

  function DigitValue(c: char): nat
    requires IsDigit(c)
  {
    c as nat - '0' as nat
  }

  /** The value of a string of decimal digits. */
  function NatOf(s: string): nat
    requires AllDigits(s)
  {
    if |s| == 0 then 0 else 10 * NatOf(s[..|s| - 1]) + DigitValue(s[|s| - 1])
  }

  /** A whole number of Hz, such as "144". */
  predicate IsWholeLabel(s: string)
  {
    |s| > 0 && AllDigits(s)
  }

  /** The display rate a selected value names, in tenths of a Hz: "144" is 1440 and
      "51.4" is 514. Labels of any other shape name no rate. */
  function LabelTenths(s: string): Option<nat>
  {
    if IsWholeLabel(s) then Some(10 * NatOf(s))
    else if |s| >= 3 && s[|s| - 2] == '.' && IsWholeLabel(s[..|s| - 2]) && IsDigit(s[|s| - 1])
    then Some(10 * NatOf(s[..|s| - 2]) + DigitValue(s[|s| - 1]))
    else None
  }

  /** `hz / mult`, in tenths of a Hz, rounded half up to one decimal. */
  function RoundedTenths(hz: nat, mult: nat): nat
    requires mult >= 1
  {
    (20 * hz + mult) / (2 * mult)
  }

  // ---------------------------------------------------------------------
  // The multiplier table (get_environment_frame_mult)
  // ---------------------------------------------------------------------

  /** The multiplier for the display rate `selected` by the frontend, or
      `None` for a value the core's profile does not offer: exactly the
      advertised rates have an entry, and every entry is a positive number
      of logic ticks per displayed frame. */
  function Lookup(rate: CoreLogicRate, selected: string): (r: Option<nat>)
    ensures r.Some? ==> r.value >= 1
    ensures r.Some? <==> selected in AdvertisedRates(rate)
  {
    match rate
    case LogicRate60 =>
      if selected == "30" then Some(2)
      else if selected == "60" then Some(1)
      else None
    case LogicRate120 =>
      if selected == "30" then Some(4)
      else if selected == "60" then Some(2)
      else if selected == "120" then Some(1)
      else None
    case LogicRate720 =>
      if selected == "24" then Some(30)
      else if selected == "30" then Some(24)
      else if selected == "48" then Some(15)
      else if selected == "51.4" then Some(14)
      else if selected == "60" then Some(12)
      else if selected == "72" then Some(10)
      else if selected == "80" then Some(9)
      else if selected == "90" then Some(8)
      else if selected == "102.9" then Some(7)
      else if selected == "120" then Some(6)
      else if selected == "144" then Some(5)
      else if selected == "180" then Some(4)
      else if selected == "240" then Some(3)
      else None
  }

  /** The multiplier a value resolves to produces the rate the value
      names: exactly for a whole-Hz value (`selected * mult == Hz(rate)`),
      and rounded half up to one decimal otherwise. */
  lemma LookupMeansRate(rate: CoreLogicRate, selected: string)
    requires Lookup(rate, selected).Some?
    ensures LabelTenths(selected) == Some(RoundedTenths(Hz(rate), Lookup(rate, selected).value))
    ensures IsWholeLabel(selected) ==> NatOf(selected) * Lookup(rate, selected).value == Hz(rate)
  {
    var rates := AdvertisedRates(rate);
    var i :| 0 <= i < |rates| && rates[i] == selected;
    match rate
    case LogicRate60 => LowEntryMeansRate(i);
    case LogicRate120 => MediumEntryMeansRate(i);
    case LogicRate720 =>
      if i < 4 {
        HighEntryMeansRate(i);
      } else if i < 8 {
        HighMidEntryMeansRate(i);
      } else {
        HighLateEntryMeansRate(i);
      }
  }

  /** The low profile's table agrees with the rates it names. */
  lemma LowEntryMeansRate(i: nat)
    requires 0 <= i < 2
    ensures var selected := AdvertisedRates(LogicRate60)[i];
      Lookup(LogicRate60, selected).Some? &&
      LabelTenths(selected) == Some(RoundedTenths(Hz(LogicRate60), Lookup(LogicRate60, selected).value)) &&
      (IsWholeLabel(selected) ==> NatOf(selected) * Lookup(LogicRate60, selected).value == Hz(LogicRate60))
  {
    var selected := AdvertisedRates(LogicRate60)[i];
    if i == 0 {
      assert selected == "60";
      assert Lookup(LogicRate60, selected) == Some(1) && RoundedTenths(60, 1) == 600;
      NatOfTwo(selected);
    } else if i == 1 {
      assert selected == "30";
      assert Lookup(LogicRate60, selected) == Some(2) && RoundedTenths(60, 2) == 300;
      NatOfTwo(selected);
    }
  }

  /** The medium profile's table agrees with the rates it names. */
  lemma MediumEntryMeansRate(i: nat)
    requires 0 <= i < 3
    ensures var selected := AdvertisedRates(LogicRate120)[i];
      Lookup(LogicRate120, selected).Some? &&
      LabelTenths(selected) == Some(RoundedTenths(Hz(LogicRate120), Lookup(LogicRate120, selected).value)) &&
      (IsWholeLabel(selected) ==> NatOf(selected) * Lookup(LogicRate120, selected).value == Hz(LogicRate120))
  {
    var selected := AdvertisedRates(LogicRate120)[i];
    if i == 0 {
      assert selected == "60";
      assert Lookup(LogicRate120, selected) == Some(2) && RoundedTenths(120, 2) == 600;
      NatOfTwo(selected);
    } else if i == 1 {
      assert selected == "120";
      assert Lookup(LogicRate120, selected) == Some(1) && RoundedTenths(120, 1) == 1200;
      NatOfThree(selected);
    } else if i == 2 {
      assert selected == "30";
      assert Lookup(LogicRate120, selected) == Some(4) && RoundedTenths(120, 4) == 300;
      NatOfTwo(selected);
    }
  }

  /** The high profile's table agrees with its first four rates. */
  lemma HighEntryMeansRate(i: nat)
    requires 0 <= i < 4
    ensures var selected := AdvertisedRates(LogicRate720)[i];
      Lookup(LogicRate720, selected).Some? &&
      LabelTenths(selected) == Some(RoundedTenths(Hz(LogicRate720), Lookup(LogicRate720, selected).value)) &&
      (IsWholeLabel(selected) ==> NatOf(selected) * Lookup(LogicRate720, selected).value == Hz(LogicRate720))
  {
    var selected := AdvertisedRates(LogicRate720)[i];
    if i == 0 {
      assert selected == "60";
      assert Lookup(LogicRate720, selected) == Some(12) && RoundedTenths(720, 12) == 600;
      NatOfTwo(selected);
    } else if i == 1 {
      assert selected == "72";
      assert Lookup(LogicRate720, selected) == Some(10) && RoundedTenths(720, 10) == 720;
      NatOfTwo(selected);
    } else if i == 2 {
      assert selected == "80";
      assert Lookup(LogicRate720, selected) == Some(9) && RoundedTenths(720, 9) == 800;
      NatOfTwo(selected);
    } else if i == 3 {
      assert selected == "90";
      assert Lookup(LogicRate720, selected) == Some(8) && RoundedTenths(720, 8) == 900;
      NatOfTwo(selected);
    }
  }

  /** The high profile's table agrees with its fifth to eighth rates. */
  lemma HighMidEntryMeansRate(i: nat)
    requires 4 <= i < 8
    ensures var selected := AdvertisedRates(LogicRate720)[i];
      Lookup(LogicRate720, selected).Some? &&
      LabelTenths(selected) == Some(RoundedTenths(Hz(LogicRate720), Lookup(LogicRate720, selected).value)) &&
      (IsWholeLabel(selected) ==> NatOf(selected) * Lookup(LogicRate720, selected).value == Hz(LogicRate720))
  {
    var selected := AdvertisedRates(LogicRate720)[i];
    if i == 4 {
      assert selected == "102.9";
      assert Lookup(LogicRate720, selected) == Some(7) && RoundedTenths(720, 7) == 1029;
      assert !IsDigit(selected[3]) && selected[..3] == "102";
      NatOfThree("102");
    } else if i == 5 {
      assert selected == "120";
      assert Lookup(LogicRate720, selected) == Some(6) && RoundedTenths(720, 6) == 1200;
      NatOfThree(selected);
    } else if i == 6 {
      assert selected == "144";
      assert Lookup(LogicRate720, selected) == Some(5) && RoundedTenths(720, 5) == 1440;
      NatOfThree(selected);
    } else if i == 7 {
      assert selected == "180";
      assert Lookup(LogicRate720, selected) == Some(4) && RoundedTenths(720, 4) == 1800;
      NatOfThree(selected);
    }
  }

  /** The high profile's table agrees with its last five rates. */
  lemma HighLateEntryMeansRate(i: nat)
    requires 8 <= i < 13
    ensures var selected := AdvertisedRates(LogicRate720)[i];
      Lookup(LogicRate720, selected).Some? &&
      LabelTenths(selected) == Some(RoundedTenths(Hz(LogicRate720), Lookup(LogicRate720, selected).value)) &&
      (IsWholeLabel(selected) ==> NatOf(selected) * Lookup(LogicRate720, selected).value == Hz(LogicRate720))
  {
    var selected := AdvertisedRates(LogicRate720)[i];
    if i == 8 {
      assert selected == "240";
      assert Lookup(LogicRate720, selected) == Some(3) && RoundedTenths(720, 3) == 2400;
      NatOfThree(selected);
    } else if i == 9 {
      assert selected == "24";
      assert Lookup(LogicRate720, selected) == Some(30) && RoundedTenths(720, 30) == 240;
      NatOfTwo(selected);
    } else if i == 10 {
      assert selected == "30";
      assert Lookup(LogicRate720, selected) == Some(24) && RoundedTenths(720, 24) == 300;
      NatOfTwo(selected);
    } else if i == 11 {
      assert selected == "48";
      assert Lookup(LogicRate720, selected) == Some(15) && RoundedTenths(720, 15) == 480;
      NatOfTwo(selected);
    } else if i == 12 {
      assert selected == "51.4";
      assert Lookup(LogicRate720, selected) == Some(14) && RoundedTenths(720, 14) == 514;
      assert !IsDigit(selected[2]) && selected[..2] == "51";
      NatOfTwo("51");
    }
  }

  lemma NatOfTwo(s: string)
    requires |s| == 2 && AllDigits(s)
    ensures NatOf(s) == 10 * DigitValue(s[0]) + DigitValue(s[1])
  {
    var p := s[..1];
    assert p[..0] == [] && p[0] == s[0];
    assert NatOf(p) == 10 * NatOf(p[..0]) + DigitValue(p[0]);
  }

  lemma NatOfThree(s: string)
    requires |s| == 3 && AllDigits(s)
    ensures NatOf(s) == 100 * DigitValue(s[0]) + 10 * DigitValue(s[1]) + DigitValue(s[2])
  {
    NatOfTwo(s[..2]);
  }

  // ---------------------------------------------------------------------
  // Advertised option strings
  // ---------------------------------------------------------------------

  /** The option key (its C terminator is not part of the model). */
  const FRAME_RATE_KEY: string := "refresh_rate"

  /** The description in front of every option string. */
  const OPTION_DESCRIPTION: string := "Display Refresh Rate"

  /** The rates each profile lists after "; ", in the order of the option
      strings, the first being the default. */
  const LOW_RATES: seq<string> := ["60", "30"]
  const MEDIUM_RATES: seq<string> := ["60", "120", "30"]
  const HIGH_RATES: seq<string> :=
    ["60", "72", "80", "90", "102.9", "120", "144", "180", "240", "24", "30", "48", "51.4"]

  /** The option string for a description and its values:
      "<description>; v1|v2|...". */
  function FormatOption(description: string, values: seq<string>): string
    requires |values| >= 1
  {
    description + "; " + Join(values, '|')
  }

  const LOW_FRAME_RATE_VALUES: string := FormatOption(OPTION_DESCRIPTION, LOW_RATES)
  const MEDIUM_FRAME_RATE_VALUES: string := FormatOption(OPTION_DESCRIPTION, MEDIUM_RATES)

  /** The high-profile option string as the core declares it: the same
      list followed by a trailing '|'. */
  const HIGH_FRAME_RATE_VALUES: string := FormatOption(OPTION_DESCRIPTION, HIGH_RATES) + "|"

  /** The high-profile option string without the trailing '|', as the two
      other profiles write theirs. */
  const HIGH_FRAME_RATE_VALUES_INTENDED: string := FormatOption(OPTION_DESCRIPTION, HIGH_RATES)

  /** The rates advertised for the core's logic rate. */
  function AdvertisedRates(rate: CoreLogicRate): seq<string>
  {
    match rate
    case LogicRate60 => LOW_RATES
    case LogicRate120 => MEDIUM_RATES
    case LogicRate720 => HIGH_RATES
  }

  /** The values the frontend is offered for the core's logic rate: the
      advertised rates, and for the high profile the empty value its
      trailing '|' adds. */
  function OfferedValues(rate: CoreLogicRate): seq<string>
  {
    AdvertisedRates(rate) + if rate == LogicRate720 then [""] else []
  }

  /** The option string advertised for the core's logic rate. */
  function OptionString(rate: CoreLogicRate): string
  {
    match rate
    case LogicRate60 => LOW_FRAME_RATE_VALUES
    case LogicRate120 => MEDIUM_FRAME_RATE_VALUES
    case LogicRate720 => HIGH_FRAME_RATE_VALUES
  }

  /** `s` cut at every `sep`: the pieces in order, none containing `sep`,
      one more piece than there are separators. */
  function Split(s: string, sep: char): (parts: seq<string>)
    ensures |parts| >= 1
    ensures forall i :: 0 <= i < |parts| ==> sep !in parts[i]
  {
    if |s| == 0 then [""]
    else
      var rest := Split(s[1..], sep);
      if s[0] == sep then [""] + rest
      else [[s[0]] + rest[0]] + rest[1..]
  }

  /** The pieces glued back with `sep` between neighbours. */
  function Join(parts: seq<string>, sep: char): string
    requires |parts| >= 1
  {
    if |parts| == 1 then parts[0] else parts[0] + [sep] + Join(parts[1..], sep)
  }

  /** Joining the pieces of a split gives back the string. */
  lemma {:induction false} JoinSplit(s: string, sep: char)
    ensures Join(Split(s, sep), sep) == s
  {
    if |s| > 0 {
      var rest := Split(s[1..], sep);
      JoinSplit(s[1..], sep);
      if s[0] == sep {
        assert Split(s, sep) == [""] + rest;
        assert ([""] + rest)[1..] == rest;
      } else {
        var parts := Split(s, sep);
        assert parts == [[s[0]] + rest[0]] + rest[1..];
        if |rest| == 1 {
          assert s == [s[0]] + s[1..];
        } else {
          assert parts[1..] == rest[1..];
          assert Join(rest, sep) == rest[0] + [sep] + Join(rest[1..], sep);
          assert s == [s[0]] + s[1..];
        }
      }
    }
  }

  /** Splitting pieces that were joined with a separator none of them
      contains gives back the pieces. */
  lemma {:induction false} SplitJoin(parts: seq<string>, sep: char)
    requires |parts| >= 1
    requires forall i :: 0 <= i < |parts| ==> sep !in parts[i]
    ensures Split(Join(parts, sep), sep) == parts
    decreases |parts|, |parts[0]|
  {
    if |parts| == 1 {
      SplitPlain(parts[0], sep);
    } else {
      var tail := Join(parts[1..], sep);
      SplitJoin(parts[1..], sep);
      SplitPrefix(parts[0], tail, sep);
      assert [parts[0]] + parts[1..] == parts;
    }
  }

  /** A string without the separator is a single piece. */
  lemma {:induction false} SplitPlain(s: string, sep: char)
    requires sep !in s
    ensures Split(s, sep) == [s]
  {
    if |s| > 0 {
      SplitPlain(s[1..], sep);
      assert [s[0]] + s[1..] == s;
    }
  }

  /** A separator-free prefix followed by a separator becomes a piece of its
      own in front of the split of the rest. */
  lemma {:induction false} SplitPrefix(p: string, rest: string, sep: char)
    requires sep !in p
    ensures Split(p + [sep] + rest, sep) == [p] + Split(rest, sep)
  {
    if |p| == 0 {
      assert p + [sep] + rest == [sep] + rest;
      assert ([sep] + rest)[1..] == rest;
    } else {
      var s := p + [sep] + rest;
      assert s[0] == p[0];
      assert s[1..] == p[1..] + [sep] + rest;
      SplitPrefix(p[1..], rest, sep);
      assert [p[0]] + p[1..] == p;
    }
  }

  /** A parsed core option: "<description>; v1|v2|...". */
  datatype OptionSpec = OptionSpec(description: string, values: seq<string>)
  {
    /** The frontend treats the first value as the default. */
    function Default(): string
      requires |values| >= 1
    {
      values[0]
    }
  }

  /** Index of the first occurrence of `c` in `s`. */
  function IndexOf(s: string, c: char): (r: Option<nat>)
    ensures r.Some? ==> r.value < |s| && s[r.value] == c && c !in s[..r.value]
    ensures r.None? ==> c !in s
  {
    if |s| == 0 then None
    else if s[0] == c then Some(0)
    else
      match IndexOf(s[1..], c)
      case None => None
      case Some(i) =>
        assert s[..i + 1] == [s[0]] + s[1..][..i];
        Some(i + 1)
  }

  /** Reads a core option value the way the libretro header describes it:
      the text before the first ';' is the description, the ';' is followed
      by one space, and the rest is the '|'-separated list of values. */
  function ParseOption(s: string): (r: Option<OptionSpec>)
    ensures r.Some? ==> |r.value.values| >= 1
    ensures r.Some? ==> s == r.value.description + "; " + Join(r.value.values, '|')
  {
    match IndexOf(s, ';')
    case None => None
    case Some(i) =>
      if i + 1 < |s| && s[i + 1] == ' ' then
        JoinSplit(s[i + 2..], '|');
        assert s == s[..i] + "; " + s[i + 2..];
        Some(OptionSpec(s[..i], Split(s[i + 2..], '|')))
      else None
  }


  /** Round trip of the option format: a description without ';' and values
      without '|', written out as "<description>; v1|v2|...", parse back to
      that description and those values. */
  lemma ParseFormatted(description: string, values: seq<string>)
    requires ';' !in description
    requires |values| >= 1 && forall i :: 0 <= i < |values| ==> '|' !in values[i]
    ensures ParseOption(FormatOption(description, values)) == Some(OptionSpec(description, values))
  {
    var rest := Join(values, '|');
    var s := description + "; " + rest;
    assert s == description + [';'] + ([' '] + rest);
    IndexOfAfter(description, ' ' as char, rest, ';');
    assert s[|description| + 1] == ' ';
    assert s[..|description|] == description;
    assert s[|description| + 2..] == rest;
    SplitJoin(values, '|');
  }

  /** The first `c` of `p + [c] + ...` is the one right after `p` when `p`
      holds no `c`. */
  lemma {:induction false} IndexOfAfter(p: string, d: char, rest: string, c: char)
    requires c !in p
    ensures IndexOf(p + [c] + ([d] + rest), c) == Some(|p|)
  {
    if |p| > 0 {
      var s := p + [c] + ([d] + rest);
      assert s[1..] == p[1..] + [c] + ([d] + rest);
      IndexOfAfter(p[1..], d, rest, c);
    }
  }

  /** Each profile's option string offers exactly its advertised rates
      after the description, with "60" first, so "60" is the default; the
      high profile's string offers one empty value after them. */
  lemma AdvertisedOption(rate: CoreLogicRate)
    ensures ParseOption(OptionString(rate))
         == Some(OptionSpec(OPTION_DESCRIPTION, OfferedValues(rate)))
    ensures AdvertisedRates(rate)[0] == "60"
  {
    if rate == LogicRate720 {
      HighOptionAsWrittenOffersEmpty();
    } else {
      assert OfferedValues(rate) == AdvertisedRates(rate);
      ParseFormatted(OPTION_DESCRIPTION, AdvertisedRates(rate));
    }
  }

  /** Every rate a profile advertises resolves to a multiplier. */
  lemma AdvertisedRatesResolve(rate: CoreLogicRate)
    ensures forall i :: 0 <= i < |AdvertisedRates(rate)| ==> Lookup(rate, AdvertisedRates(rate)[i]).Some?
  {
  }

  /** Appending an empty value to a list adds a trailing separator. */
  lemma {:induction false} JoinEmptyLast(values: seq<string>, sep: char)
    requires |values| >= 1
    ensures Join(values + [""], sep) == Join(values, sep) + [sep]
  {
    if |values| == 1 {
      assert (values + [""])[1..] == [""];
    } else {
      assert (values + [""])[1..] == values[1..] + [""];
      JoinEmptyLast(values[1..], sep);
    }
  }

  /** The high-profile option string as declared parses to the thirteen
      rates and then an empty value, and the empty value has no entry in
      the table: a frontend that offers it makes the option lookup fail. */
  lemma HighOptionAsWrittenOffersEmpty()
    ensures ParseOption(HIGH_FRAME_RATE_VALUES)
         == Some(OptionSpec(OPTION_DESCRIPTION, HIGH_RATES + [""]))
    ensures Lookup(LogicRate720, "").None?
  {
    RatesHaveNoSeparator(LogicRate720);
    ParseTrailingSeparator(OPTION_DESCRIPTION, HIGH_RATES);
  }

  /** A formatted option with one more '|' at its end parses to its values
      followed by an empty one. */
  lemma ParseTrailingSeparator(description: string, values: seq<string>)
    requires ';' !in description
    requires |values| >= 1 && forall i :: 0 <= i < |values| ==> '|' !in values[i]
    ensures ParseOption(FormatOption(description, values) + "|")
         == Some(OptionSpec(description, values + [""]))
  {
    var longer := values + [""];
    JoinEmptyLast(values, '|');
    assert FormatOption(description, values) + "|" == FormatOption(description, longer);
    assert forall i :: 0 <= i < |longer| ==> '|' !in longer[i] by {
      forall i | 0 <= i < |longer|
        ensures '|' !in longer[i]
      {
        if i < |values| {
          assert longer[i] == values[i];
        }
      }
    }
    ParseFormatted(description, longer);
  }

  /** No advertised rate contains the value separator. */
  lemma RatesHaveNoSeparator(rate: CoreLogicRate)
    ensures forall i :: 0 <= i < |AdvertisedRates(rate)| ==> '|' !in AdvertisedRates(rate)[i]
  {
  }

  /** Every value the corrected high-profile string offers resolves. */
  lemma HighOptionOffersOnlyResolvable()
    ensures ParseOption(HIGH_FRAME_RATE_VALUES_INTENDED).Some?
    ensures forall v :: v in ParseOption(HIGH_FRAME_RATE_VALUES_INTENDED).value.values ==> Lookup(LogicRate720, v).Some?
  {
    RatesHaveNoSeparator(LogicRate720);
    ParseFormatted(OPTION_DESCRIPTION, HIGH_RATES);
  }
}
