/**
 * `getNextQuestionId` (app/actions.ts) after its database call: the latest
 * stored q_id with the type's prefix arrives as a value, and the next ID is
 * its first dash part followed by the incremented, zero-padded sequence.
 */
module NextId {
  import opened Wrappers
  import opened Text
  import opened Types

  /** An ID `head-NNNNN`: the sequence number zero-padded to at least five digits. */
  function FormatId(head: string, n: nat): string {
    head + "-" + PadStart(NatToDecimal(n), 5, '0')
  }

  /** The fallback `${type}25-00001`. */
  function FirstId(t: QuestionType): string {
    TypeCode(t) + "25-" + "00001"
  }

  /**
   * `getNextQuestionId` after its database call: `latest` is the q_id of the
   * latest row with the type's prefix, or None when the call failed or found
   * none. Absent, fewer than two dash parts, or a second part that does not
   * start with a digit all give the first ID; otherwise the sequence is
   * incremented and re-padded after the first part.
   */
  function NextQuestionId(t: QuestionType, latest: Option<string>): (r: string)
    ensures '-' in r
  {
    FirstIdDash(t);
    if latest.None? then FirstId(t)
    else
      var parts := Split(latest.value, '-');
      if |parts| < 2 then FirstId(t)
      else
        match ParseInt(parts[1])
        case None => FirstId(t)
        case Some(seqNum) => FormatIdDash(parts[0], seqNum + 1); FormatId(parts[0], seqNum + 1)
  }

  lemma FormatIdDash(head: string, n: nat)
    ensures '-' in FormatId(head, n)
  {
    assert FormatId(head, n)[|head|] == '-';
  }

  lemma FirstIdDash(t: QuestionType)
    ensures '-' in FirstId(t)
  {
    assert FirstId(t)[|TypeCode(t)| + 2] == '-';
  }

  lemma FirstIdFormat(t: QuestionType)
    ensures FirstId(t) == FormatId(TypeCode(t) + "25", 1)
    ensures '-' !in TypeCode(t) + "25"
  {
    assert NatToDecimal(1) == "1";
    assert Repeat('0', 4) == "0000";
    assert TypeCode(t) + "25-" + "00001" == TypeCode(t) + "25" + "-" + "00001";
  }

  /** Splitting a formatted ID gives back its head and its padded sequence. */
  lemma FormatIdSplit(head: string, n: nat)
    requires '-' !in head
    ensures Split(FormatId(head, n), '-') == [head, PadStart(NatToDecimal(n), 5, '0')]
  {
    var pad := PadStart(NatToDecimal(n), 5, '0');
    ParsePadded(n, 5);
    assert '-' !in pad by {
      forall k | 0 <= k < |pad| ensures pad[k] != '-' {
        assert IsDigit(pad[k]);
      }
    }
    SplitAtSeparator(head, pad, '-');
    SplitWithoutSeparator(head, '-');
    SplitWithoutSeparator(pad, '-');
  }

  /** The next ID of a formatted ID keeps its head and increments its sequence number. */
  lemma NextOfFormatted(t: QuestionType, head: string, n: nat)
    requires '-' !in head
    ensures NextQuestionId(t, Some(FormatId(head, n))) == FormatId(head, n + 1)
  {
    FormatIdSplit(head, n);
    ParsePadded(n, 5);
  }

  /** Every ID produced is formatted, with a dash-free head and a sequence number of at least 1. */
  lemma NextIdFormatted(t: QuestionType, latest: Option<string>)
    ensures exists head, n: nat :: '-' !in head && n >= 1 && NextQuestionId(t, latest) == FormatId(head, n)
  {
    FirstIdFormat(t);
    if latest.Some? {
      var parts := Split(latest.value, '-');
      if |parts| >= 2 && ParseInt(parts[1]).Some? {
        assert NextQuestionId(t, latest) == FormatId(parts[0], ParseInt(parts[1]).value + 1);
      }
    }
  }

  /** `T25-00041` is followed by `T25-00042`. */
  lemma NextIdExample()
    ensures NextQuestionId(Truth, Some("T25-00041")) == "T25-00042"
  {
    assert NatToDecimal(4) == "4" && NatToDecimal(1) == "1" && NatToDecimal(2) == "2";
    assert NatToDecimal(41) == "41" && NatToDecimal(42) == "42";
    assert Repeat('0', 3) == "000";
    assert FormatId("T25", 41) == "T25-00041";
    assert FormatId("T25", 42) == "T25-00042";
    NextOfFormatted(Truth, "T25", 41);
  }

  /** An earlier ID without a dash restarts the sequence. */
  lemma SinglePartRestarts(t: QuestionType, id: string)
    requires '-' !in id
    ensures NextQuestionId(t, Some(id)) == FirstId(t)
  {
    SplitWithoutSeparator(id, '-');
  }

  /**
   * So does one whose second dash part does not start with a digit, whatever
   * follows it: `T25-abc-1` restarts at `T25-00001`.
   */
  lemma NonNumericRestarts(t: QuestionType, head: string, tail: string)
    requires '-' !in head
    requires tail == [] || !IsDigit(tail[0])
    ensures NextQuestionId(t, Some(head + "-" + tail)) == FirstId(t)
  {
    SecondPart(head, tail);
    var second := Split(tail, '-')[0];
    SplitFirstPrefix(tail, '-');
    assert second == [] || !IsDigit(second[0]) by {
      if second != [] {
        assert second[0] == tail[0];
      }
    }
  }

  /**
   * `parseInt` stops at the first non-digit and the split drops everything
   * from the next dash on, so after any run of digits, leading zeros
   * included, whatever follows is ignored: `T25-007` is followed by
   * `T25-00008` and `T25-00041-b` by `T25-00042`.
   */
  lemma NextIdDigitsThen(t: QuestionType, head: string, ds: string, rest: string)
    requires '-' !in head
    requires ds != [] && AllDigits(ds)
    requires rest == [] || !IsDigit(rest[0])
    ensures NextQuestionId(t, Some(head + "-" + (ds + rest))) == FormatId(head, DigitsValue(ds) + 1)
  {
    DigitsThenNext(t, head + "-" + (ds + rest), head, ds, rest);
  }

  /** `NextIdDigitsThen` with the earlier ID named, so the dash parts are read off `latest`. */
  lemma DigitsThenNext(t: QuestionType, latest: string, head: string, ds: string, rest: string)
    requires latest == head + "-" + (ds + rest)
    requires '-' !in head
    requires ds != [] && AllDigits(ds)
    requires rest == [] || !IsDigit(rest[0])
    ensures NextQuestionId(t, Some(latest)) == FormatId(head, DigitsValue(ds) + 1)
  {
    DigitsThenParts(latest, head, ds, rest);
    NextIdOfParts(t, latest, head, DigitsValue(ds));
  }

  /** The rule read off the dash parts: the first part, a dash, and the parsed second part plus one. */
  lemma NextIdOfParts(t: QuestionType, latest: string, head: string, v: nat)
    requires |Split(latest, '-')| >= 2 && Split(latest, '-')[0] == head
    requires ParseInt(Split(latest, '-')[1]) == Some(v)
    ensures NextQuestionId(t, Some(latest)) == FormatId(head, v + 1)
  {
    var parts := Split(latest, '-');
    assert ParseInt(parts[1]).Some? && parts[0] == head;
  }

  /** The dash parts of `head-<digits><rest>`: the head, then a second part that parses as the digits. */
  lemma DigitsThenParts(latest: string, head: string, ds: string, rest: string)
    requires latest == head + "-" + (ds + rest)
    requires '-' !in head
    requires ds != [] && AllDigits(ds)
    requires rest == [] || !IsDigit(rest[0])
    ensures |Split(latest, '-')| >= 2
    ensures Split(latest, '-')[0] == head
    ensures ParseInt(Split(latest, '-')[1]) == Some(DigitsValue(ds))
  {
    SecondPart(head, ds + rest);
    assert '-' !in ds by {
      forall k | 0 <= k < |ds| ensures ds[k] != '-' {
        assert IsDigit(ds[k]);
      }
    }
    SplitFirstConcat(ds, rest, '-');
    var first := Split(rest, '-')[0];
    SplitFirstPrefix(rest, '-');
    assert first == [] || !IsDigit(first[0]) by {
      if first != [] {
        assert first[0] == rest[0];
      }
    }
    ParseDigitsThen(ds, first);
  }

  /** The same for the shortest numeral of n: `T25-12abc` is followed by `T25-00013`. */
  lemma NextIdIgnoresSuffix(t: QuestionType, head: string, n: nat, rest: string)
    requires '-' !in head
    requires rest == [] || !IsDigit(rest[0])
    ensures NextQuestionId(t, Some(head + "-" + (NatToDecimal(n) + rest))) == FormatId(head, n + 1)
  {
    DecimalThenNext(t, head + "-" + (NatToDecimal(n) + rest), head, n, rest);
  }

  /** `NextIdIgnoresSuffix` with the earlier ID named. */
  lemma DecimalThenNext(t: QuestionType, latest: string, head: string, n: nat, rest: string)
    requires latest == head + "-" + (NatToDecimal(n) + rest)
    requires '-' !in head
    requires rest == [] || !IsDigit(rest[0])
    ensures NextQuestionId(t, Some(latest)) == FormatId(head, n + 1)
  {
    DigitsThenParts(latest, head, NatToDecimal(n), rest);
    NextIdOfParts(t, latest, head, n);
  }

  /** A third dash part is ignored: `T25-00041-b` is followed by `T25-00042`. */
  lemma NextIdDashedExample(id: string, ds: string)
    requires ds == "00041" && id == "T25" + "-" + (ds + "-b")
    ensures id == "T25-00041-b"
    ensures NextQuestionId(Truth, Some(id)) == "T25-00042"
  {
    PaddedValue41(ds);
    NextIdDigitsThen(Truth, "T25", ds, "-b");
    Formatted42();
  }

  lemma PaddedValue41(ds: string)
    requires ds == "00041"
    ensures AllDigits(ds) && DigitsValue(ds) == 41
  {
    assert NatToDecimal(4) == "4" && NatToDecimal(41) == "41";
    assert Repeat('0', 3) == "000";
    LeadingZeros(3, "41");
    assert Repeat('0', 3) + "41" == ds;
  }

  lemma Formatted42()
    ensures FormatId("T25", 42) == "T25-00042"
  {
    assert NatToDecimal(4) == "4" && NatToDecimal(2) == "2" && NatToDecimal(42) == "42";
    assert Repeat('0', 3) == "000";
  }

  /** The parts of `head-tail` for a dash-free head: the head, then the pieces of the tail. */
  lemma SecondPart(head: string, tail: string)
    requires '-' !in head
    ensures Split(head + "-" + tail, '-') == [head] + Split(tail, '-')
    ensures Split(head + "-" + tail, '-')[1] == Split(tail, '-')[0]
  {
    assert head + "-" + tail == head + ['-'] + tail;
    SplitAtSeparator(head, tail, '-');
    SplitWithoutSeparator(head, '-');
  }

  /** `B25-00001` when nothing is stored yet. */
  lemma FirstIdExample()
    ensures NextQuestionId(Balance, None) == "B25-00001"
  {
  }
}
