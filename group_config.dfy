/**
  * Group configuration: the table that maps each sparse feature group to the
  * shape (rows x cols) of its embedding table. Items are read either from an
  * inline string `g:c,g:r:c,...` or from a file with one `g r c` line per
  * item; both forms validate every item, reject a repeated group id and
  * report the largest group id plus one. The derived views (LR projection,
  * FM check, total width) are computed from an item list.
  */
module GroupConfig {
  import opened Base

  /** Largest admissible group id (the value of MAX_GROUP_ID, see README). */
  const MAX_GROUP_ID: int := 65535

  datatype GroupConfigItem = GroupConfigItem(groupId: int32, embeddingRow: int32, embeddingCol: int32)

  /** What a well-formed item is: an admissible id and a table of positive size that fits in an int. */
  predicate ValidItem(item: GroupConfigItem)
  {
    && 0 <= item.groupId <= MAX_GROUP_ID
    && item.embeddingRow > 0
    && item.embeddingCol > 0
    && item.embeddingRow * item.embeddingCol <= INT32_MAX
  }

  predicate DistinctIds(items: seq<GroupConfigItem>)
  {
    forall i, j :: 0 <= i < j < |items| ==> items[i].groupId != items[j].groupId
  }

  /** A configuration as the loaders promise it: every item valid, no group id twice. */
  predicate ValidConfig(items: seq<GroupConfigItem>)
  {
    (forall i :: 0 <= i < |items| ==> ValidItem(items[i])) && DistinctIds(items)
  }

  function GroupIds(items: seq<GroupConfigItem>): set<int>
  {
    set i | 0 <= i < |items| :: items[i].groupId as int
  }

  lemma ProductFitsUint64(a: int, b: int)
    requires 0 < a <= INT32_MAX && 0 < b <= INT32_MAX
    ensures 0 < a * b < TWO_64
  {
    assert a * b <= INT32_MAX * b;
    assert INT32_MAX * b <= INT32_MAX * INT32_MAX;
  }

  /**
    * CheckGroupConfigItem, with the row x col product taken in 64-bit
    * unsigned arithmetic as the source does; it accepts exactly the valid items.
    */
  function CheckGroupConfigItem(item: GroupConfigItem): (ok: bool)
    ensures ok <==> ValidItem(item)
  {
    if item.groupId < 0 || item.groupId > MAX_GROUP_ID then false
    else if item.embeddingRow <= 0 then false
    else if item.embeddingCol <= 0 then false
    else
      var wide := ToUint64(ToUint64(item.embeddingRow) * ToUint64(item.embeddingCol));
      assert wide == item.embeddingRow * item.embeddingCol by {
        ProductFitsUint64(item.embeddingRow, item.embeddingCol);
      }
      wide <= INT32_MAX
  }

  // ---------------------------------------------------------------------
  // `iss >> x` for an int x, as the file form reads its three numbers.
  // ---------------------------------------------------------------------

  /** White space in the C locale: space, \t, \n, \v, \f, \r. */
  predicate IsSpace(c: char)
  {
    c == ' ' || 9 <= c as int <= 13
  }

  function SkipSpace(s: string): (r: string)
    ensures |r| <= |s| && r == s[|s| - |r|..]
    ensures r == [] || !IsSpace(r[0])
    decreases |s|
  {
    if s != [] && IsSpace(s[0]) then SkipSpace(s[1..]) else s
  }

  /** Length of the run of digits at the start of s. */
  function LeadingDigits(s: string): (n: nat)
    ensures n <= |s| && AllDigits(s[..n])
    ensures n < |s| ==> !IsDigit(s[n])
    decreases |s|
  {
    if s != [] && IsDigit(s[0]) then
      var m := LeadingDigits(s[1..]);
      assert s[..1 + m] == [s[0]] + s[1..][..m];
      1 + m
    else 0
  }

  /**
    * Extraction of one int: leading white space is skipped, an optional sign
    * and at least one digit are read, and a value outside int sets the fail
    * bit. On success, the value and the unread rest of the line.
    */
  function ExtractInt(s: string): (r: Option<(int32, string)>)
    ensures r.Some? ==> |r.value.1| < |s| && IsSuffix(r.value.1, s) && (r.value.1 == [] || !IsDigit(r.value.1[0]))
    ensures (forall i :: 0 <= i < |s| ==> IsSpace(s[i])) ==> r.None?
  {
    var t := SkipSpace(s);
    SkipSpaceOfBlank(s);
    if t != [] && (t[0] == '-' || t[0] == '+') then
      var u := t[1..];
      SuffixOfSuffix(s, t, u);
      var r := ExtractDigits(t[0] == '-', u);
      if r.Some? then SuffixOfSuffix(s, u, r.value.1); r else r
    else
      var r := ExtractDigits(false, t);
      if r.Some? then SuffixOfSuffix(s, t, r.value.1); r else r
  }

  lemma SkipSpaceOfBlank(s: string)
    ensures (forall i :: 0 <= i < |s| ==> IsSpace(s[i])) ==> SkipSpace(s) == []
  {
  }

  /** u is what is left of s once a first part has been read. */
  predicate IsSuffix(u: string, s: string)
  {
    |u| <= |s| && u == s[|s| - |u|..]
  }

  /** A suffix of a suffix of s is a suffix of s. */
  lemma SuffixOfSuffix(s: string, t: string, u: string)
    requires IsSuffix(t, s) && IsSuffix(u, t)
    ensures IsSuffix(u, s)
  {
    assert forall k :: 0 <= k < |u| ==> u[k] == s[|s| - |u| + k];
  }

  /** The digits after the sign: at least one, and the signed value within int. */
  function ExtractDigits(negative: bool, u: string): (r: Option<(int32, string)>)
    ensures (u == [] || !IsDigit(u[0])) ==> r.None?
    ensures r.Some? ==> |r.value.1| < |u| && IsSuffix(r.value.1, u) && (r.value.1 == [] || !IsDigit(r.value.1[0]))
    ensures r.Some? && !negative ==> r.value.0 >= 0
  {
    var n := LeadingDigits(u);
    if n == 0 then None
    else
      var magnitude: int := DigitsValue(u[..n]);
      var v: int := if negative then -magnitude else magnitude;
      if INT32_MIN <= v <= INT32_MAX then Some((v, u[n..])) else None
  }

  /** `iss >> group_id >> embedding_row >> embedding_col`; whatever follows the third number is ignored. */
  function ExtractThreeInts(line: string): (r: Option<GroupConfigItem>)
    ensures (forall i :: 0 <= i < |line| ==> IsSpace(line[i])) ==> r.None?
    ensures ExtractInt(line).None? ==> r.None?
    ensures r.Some? ==> ExtractInt(line).Some? && r.value.groupId == ExtractInt(line).value.0
  {
    match ExtractInt(line)
    case None => None
    case Some((g, rest1)) =>
      match ExtractInt(rest1)
      case None => None
      case Some((row, rest2)) =>
        match ExtractInt(rest2)
        case None => None
        case Some((col, _)) => Some(GroupConfigItem(g, row, col))
  }

  /** A run of digits followed by a non-digit is read as its value with the sign applied, failing outside int. */
  lemma ExtractDigitsOfSplit(negative: bool, digits: string, rest: string)
    requires digits != [] && AllDigits(digits) && (rest == [] || !IsDigit(rest[0]))
    ensures var v := if negative then -(DigitsValue(digits) as int) else DigitsValue(digits);
      ExtractDigits(negative, digits + rest) == if INT32_MIN <= v <= INT32_MAX then Some((v, rest)) else None
  {
    var u := digits + rest;
    LeadingDigitsOfConcat(digits, rest);
    assert u[..|digits|] == digits;
    assert u[|digits|..] == rest;
  }

  /** The text of one number as `>>` reads it: white space, an optional sign, then digits. */
  datatype NumberText = NumberText(spaces: string, sign: string, digits: string)

  predicate WellFormedNumber(n: NumberText)
  {
    && (forall i :: 0 <= i < |n.spaces| ==> IsSpace(n.spaces[i]))
    && (n.sign == "" || n.sign == "-" || n.sign == "+")
    && n.digits != [] && AllDigits(n.digits)
  }

  function NumberString(n: NumberText): string
  {
    n.spaces + n.sign + n.digits
  }

  /** The value the digits denote, negated after a minus sign; a plus sign changes nothing. */
  function NumberValue(n: NumberText): int
    requires WellFormedNumber(n)
  {
    if n.sign == "-" then -(DigitsValue(n.digits) as int) else DigitsValue(n.digits)
  }

  lemma {:induction false} SkipSpaceOfSpaces(spaces: string, t: string)
    requires forall i :: 0 <= i < |spaces| ==> IsSpace(spaces[i])
    requires t == [] || !IsSpace(t[0])
    ensures SkipSpace(spaces + t) == t
    decreases |spaces|
  {
    if spaces == [] {
      assert spaces + t == t;
    } else {
      assert (spaces + t)[1..] == spaces[1..] + t;
      SkipSpaceOfSpaces(spaces[1..], t);
    }
  }

  lemma ExtractDigitsOfNumber(n: NumberText, rest: string)
    requires WellFormedNumber(n) && (rest == [] || !IsDigit(rest[0]))
    ensures ExtractDigits(n.sign == "-", n.digits + rest) ==
      if INT32_MIN <= NumberValue(n) <= INT32_MAX then Some((NumberValue(n), rest)) else None
  {
    ExtractDigitsOfSplit(n.sign == "-", n.digits, rest);
  }

  /** After white space is skipped, a sign is taken, then the digits are read. */
  lemma ExtractIntFromSkipped(s: string, t: string)
    requires SkipSpace(s) == t
    ensures ExtractInt(s) ==
      if t != [] && (t[0] == '-' || t[0] == '+') then ExtractDigits(t[0] == '-', t[1..]) else ExtractDigits(false, t)
  {
  }

  /** A well-formed number is read by its digits, negated after a minus sign. */
  lemma ExtractIntReadsDigits(n: NumberText, rest: string)
    requires WellFormedNumber(n)
    ensures ExtractInt(NumberString(n) + rest) == ExtractDigits(n.sign == "-", n.digits + rest)
  {
    var s := NumberString(n) + rest;
    var t := n.sign + n.digits + rest;
    assert s == n.spaces + t;
    if n.sign == "" {
      assert t == n.digits + rest && t[0] == n.digits[0];
      SkipSpaceOfSpaces(n.spaces, t);
      ExtractIntFromSkipped(s, t);
    } else {
      assert t[0] == n.sign[0] && t[1..] == n.digits + rest;
      SkipSpaceOfSpaces(n.spaces, t);
      ExtractIntFromSkipped(s, t);
      assert (t[0] == '-') == (n.sign == "-");
    }
  }

  /**
    * A well-formed number followed by a non-digit is read as its value, and
    * the read stops right after its last digit; a value outside int fails.
    */
  lemma ExtractIntOfNumber(n: NumberText, rest: string)
    requires WellFormedNumber(n) && (rest == [] || !IsDigit(rest[0]))
    ensures ExtractInt(NumberString(n) + rest) ==
      if INT32_MIN <= NumberValue(n) <= INT32_MAX then Some((NumberValue(n), rest)) else None
  {
    ExtractIntReadsDigits(n, rest);
    ExtractDigitsOfNumber(n, rest);
  }


  /**
    * Without a digit after the white space and the optional sign, the read
    * fails: a blank rest, a sign followed by a non-digit, or any other character.
    */
  lemma ExtractIntNoNumber(spaces: string, sign: string, rest: string)
    requires forall i :: 0 <= i < |spaces| ==> IsSpace(spaces[i])
    requires sign == "" || sign == "-" || sign == "+"
    requires rest == [] || !IsDigit(rest[0])
    requires sign == "" ==> rest == [] || (!IsSpace(rest[0]) && rest[0] != '-' && rest[0] != '+')
    ensures ExtractInt(spaces + sign + rest).None?
  {
    var s := spaces + sign + rest;
    var t := sign + rest;
    assert s == spaces + t;
    if sign != "" {
      assert t[0] == sign[0] && t[1..] == rest;
    }
    SkipSpaceOfSpaces(spaces, t);
    ExtractIntFromSkipped(s, t);
  }

  predicate InInt32(v: int)
  {
    INT32_MIN <= v <= INT32_MAX
  }

  /** Three reads in a row, each of which fails exactly when its value is outside int. */
  lemma ExtractThreeIntsOfReads(line: string, rest1: string, rest2: string, tail: string, a: int, b: int, c: int)
    requires ExtractInt(line) == if InInt32(a) then Some((a, rest1)) else None
    requires ExtractInt(rest1) == if InInt32(b) then Some((b, rest2)) else None
    requires ExtractInt(rest2) == if InInt32(c) then Some((c, tail)) else None
    ensures ExtractThreeInts(line) == if InInt32(a) && InInt32(b) && InInt32(c) then Some(GroupConfigItem(a, b, c)) else None
  {
  }

  /**
    * Three well-formed numbers, the second and third separated from what
    * precedes them by white space or a sign, and then any text not starting
    * with a digit: the item of their values, or a failure when one of them
    * is outside int.
    */
  lemma ExtractThreeIntsOfNumbers(a: NumberText, b: NumberText, c: NumberText, tail: string)
    requires WellFormedNumber(a) && WellFormedNumber(b) && WellFormedNumber(c)
    requires b.spaces != [] || b.sign != ""
    requires c.spaces != [] || c.sign != ""
    requires tail == [] || !IsDigit(tail[0])
    ensures var line := NumberString(a) + NumberString(b) + NumberString(c) + tail;
      var (x, y, z) := (NumberValue(a), NumberValue(b), NumberValue(c));
      ExtractThreeInts(line) == if InInt32(x) && InInt32(y) && InInt32(z) then Some(GroupConfigItem(x, y, z)) else None
  {
    var rest2 := NumberString(c) + tail;
    var rest1 := NumberString(b) + rest2;
    assert NumberString(a) + NumberString(b) + NumberString(c) + tail == NumberString(a) + rest1;
    assert !IsDigit(rest1[0]) by {
      if b.spaces != [] { assert rest1[0] == b.spaces[0]; } else { assert rest1[0] == b.sign[0]; }
    }
    assert !IsDigit(rest2[0]) by {
      if c.spaces != [] { assert rest2[0] == c.spaces[0]; } else { assert rest2[0] == c.sign[0]; }
    }
    ExtractIntOfNumber(a, rest1);
    ExtractIntOfNumber(b, rest2);
    ExtractIntOfNumber(c, tail);
    ExtractThreeIntsOfReads(NumberString(a) + rest1, rest1, rest2, tail, NumberValue(a), NumberValue(b), NumberValue(c));
  }

  /** A line holding two numbers and then only white space is invalid: the third read finds no digit. */
  lemma ExtractTwoNumbersOnly(a: NumberText, b: NumberText, spaces: string)
    requires WellFormedNumber(a) && WellFormedNumber(b)
    requires b.spaces != [] || b.sign != ""
    requires forall i :: 0 <= i < |spaces| ==> IsSpace(spaces[i])
    ensures ExtractThreeInts(NumberString(a) + NumberString(b) + spaces).None?
  {
    var rest1 := NumberString(b) + spaces;
    var line := NumberString(a) + rest1;
    assert NumberString(a) + NumberString(b) + spaces == line;
    assert ExtractInt(line) == if InInt32(NumberValue(a)) then Some((NumberValue(a), rest1)) else None by {
      assert !IsDigit(rest1[0]) by {
        if b.spaces != [] { assert rest1[0] == b.spaces[0]; } else { assert rest1[0] == b.sign[0]; }
      }
      ExtractIntOfNumber(a, rest1);
    }
    assert ExtractInt(rest1) == if InInt32(NumberValue(b)) then Some((NumberValue(b), spaces)) else None by {
      assert spaces == [] || !IsDigit(spaces[0]);
      ExtractIntOfNumber(b, spaces);
    }
    ExtractThreeIntsNoThird(line, rest1, spaces, NumberValue(a), NumberValue(b));
  }


  lemma ExtractThreeIntsNoThird(line: string, rest1: string, rest2: string, a: int, b: int)
    requires ExtractInt(line) == if InInt32(a) then Some((a, rest1)) else None
    requires ExtractInt(rest1) == if InInt32(b) then Some((b, rest2)) else None
    requires ExtractInt(rest2).None?
    ensures ExtractThreeInts(line).None?
  {
  }



  lemma {:induction false} LeadingDigitsOfConcat(a: string, b: string)
    requires AllDigits(a)
    requires b == [] || !IsDigit(b[0])
    ensures LeadingDigits(a + b) == |a|
    decreases |a|
  {
    if a != [] {
      assert (a + b)[1..] == a[1..] + b;
      LeadingDigitsOfConcat(a[1..], b);
    }
  }

  /** The digits std::to_string prints for |x|, followed by a non-digit, read back as x. */
  lemma ExtractDigitsOfDec(x: int32, rest: string)
    requires rest == [] || !IsDigit(rest[0])
    ensures ExtractDigits(x < 0, Dec(Abs(x)) + rest) == Some((x, rest))
  {
    ExtractDigitsOfSplit(x < 0, Dec(Abs(x)), rest);
    DecValue(Abs(x));
  }

  lemma SkipSpaceNoop(s: string)
    requires s != [] && !IsSpace(s[0])
    ensures SkipSpace(s) == s
  {
  }

  lemma ExtractIntMinus(s: string)
    requires s != [] && s[0] == '-'
    ensures ExtractInt(s) == ExtractDigits(true, s[1..])
  {
    SkipSpaceNoop(s);
  }

  lemma ExtractIntDigit(s: string)
    requires s != [] && IsDigit(s[0])
    ensures ExtractInt(s) == ExtractDigits(false, s)
  {
    SkipSpaceNoop(s);
  }

  /** std::to_string of a negative int is a minus sign followed by the digits of its magnitude. */
  lemma IntToStringNegative(x: int, rest: string)
    requires x < 0
    ensures (IntToString(x) + rest)[0] == '-' && (IntToString(x) + rest)[1..] == Dec(Abs(x)) + rest
  {
    var d := Dec(-x);
    assert IntToString(x) + rest == "-" + (d + rest);
  }

  lemma DecThenRestStartsWithDigit(n: nat, rest: string)
    ensures IsDigit((Dec(n) + rest)[0])
  {
    var d := Dec(n);
    assert (d + rest)[0] == d[0];
  }

  /** Reading an int back from what std::to_string printed, followed by a non-digit, gives the int. */
  lemma ExtractIntRoundTrip(x: int32, rest: string)
    requires rest == [] || !IsDigit(rest[0])
    ensures ExtractInt(IntToString(x) + rest) == Some((x, rest))
  {
    ExtractDigitsOfDec(x, rest);
    if x < 0 {
      IntToStringNegative(x, rest);
      ExtractIntMinus(IntToString(x) + rest);
    } else {
      DecThenRestStartsWithDigit(Abs(x), rest);
      ExtractIntDigit(Dec(Abs(x)) + rest);
    }
  }

  // ---------------------------------------------------------------------
  // The two input forms, reduced to one candidate item per token or line.
  // ---------------------------------------------------------------------

  /** What one inline token or one file line contributes. */
  datatype Candidate = Skip | Malformed | Parsed(item: GroupConfigItem)

  /** A file line holding `#` or `//` anywhere is a comment. */
  predicate IsCommentLine(line: string)
  {
    '#' in line || exists i :: 0 <= i < |line| - 1 && line[i] == '/' && line[i + 1] == '/'
  }

  /** A `#` or `//` anywhere in a line makes it a comment. */
  lemma CommentAnywhere(before: string, marker: string, after: string)
    requires marker == "#" || marker == "//"
    ensures IsCommentLine(before + marker + after)
  {
    var line := before + marker + after;
    assert line[|before|] == marker[0];
    if marker == "//" {
      assert line[|before| + 1] == '/';
    }
  }

  function LineCandidate(line: string): (c: Candidate)
    ensures c.Skip? <==> IsCommentLine(line)
    ensures (forall i :: 0 <= i < |line| ==> IsSpace(line[i])) ==> c.Malformed?
  {
    if IsCommentLine(line) then Skip
    else match ExtractThreeInts(line)
      case None => Malformed
      case Some(item) => Parsed(item)
  }

  /**
    * One inline token after splitting at ':'; a field that is not an integer
    * is None. Two fields are `g:c` with one row, three are `g:r:c`.
    */
  function TokenCandidate(fields: seq<Option<int32>>): (c: Candidate)
    ensures !c.Skip?
    ensures c.Parsed? <==> (|fields| == 2 || |fields| == 3) && forall i :: 0 <= i < |fields| ==> fields[i].Some?
    ensures c.Parsed? ==>
      && c.item.groupId == fields[0].value
      && c.item.embeddingRow == (if |fields| == 2 then 1 else fields[1].value)
      && c.item.embeddingCol == fields[|fields| - 1].value
  {
    if exists i :: 0 <= i < |fields| && fields[i].None? then Malformed
    else if |fields| == 2 then Parsed(GroupConfigItem(fields[0].value, 1, fields[1].value))
    else if |fields| == 3 then Parsed(GroupConfigItem(fields[0].value, fields[1].value, fields[2].value))
    else Malformed
  }

  function LineCandidates(lines: seq<string>): (cs: seq<Candidate>)
    ensures |cs| == |lines|
  {
    seq(|lines|, i requires 0 <= i < |lines| => LineCandidate(lines[i]))
  }

  function TokenCandidates(tokens: seq<seq<Option<int32>>>): (cs: seq<Candidate>)
    ensures |cs| == |tokens|
  {
    seq(|tokens|, i requires 0 <= i < |tokens| => TokenCandidate(tokens[i]))
  }

  // ---------------------------------------------------------------------
  // The loop both loaders run, as a left fold over the candidates.
  // ---------------------------------------------------------------------

  /** The loop state: whether it has returned false, the items so far, and *max_group_id. */
  datatype Scan = Scan(failed: bool, items: seq<GroupConfigItem>, maxGroupId: int)

  function Step(s: Scan, c: Candidate): (r: Scan)
    ensures s.failed ==> r == s
    ensures c.Malformed? ==> r.failed
    ensures r.failed ==> r.items == s.items && r.maxGroupId == s.maxGroupId
    ensures !r.failed ==> r.items == s.items + (if c.Parsed? then [c.item] else []) && r.maxGroupId >= s.maxGroupId
    ensures (forall i :: 0 <= i < |s.items| ==> s.items[i].groupId <= s.maxGroupId) ==>
      forall i :: 0 <= i < |r.items| ==> r.items[i].groupId <= r.maxGroupId
  {
    if s.failed then s
    else match c
      case Skip => s
      case Malformed => s.(failed := true)
      case Parsed(item) =>
        if !CheckGroupConfigItem(item) || item.groupId as int in GroupIds(s.items) then s.(failed := true)
        else Scan(false, s.items + [item], if s.maxGroupId < item.groupId then item.groupId else s.maxGroupId)
  }

  function ScanAll(cs: seq<Candidate>): (s: Scan)
    ensures |s.items| <= |cs| && s.maxGroupId >= 0
    ensures forall i :: 0 <= i < |s.items| ==> s.items[i].groupId <= s.maxGroupId
    decreases |cs|
  {
    if cs == [] then Scan(false, [], 0) else Step(ScanAll(cs[..|cs| - 1]), cs[|cs| - 1])
  }

  /** One more candidate is one more step of the fold. */
  lemma ScanAllSnoc(cs: seq<Candidate>, i: nat)
    requires i < |cs|
    ensures ScanAll(cs[..i + 1]) == Step(ScanAll(cs[..i]), cs[i])
  {
    assert cs[..i + 1][..i] == cs[..i];
  }

  /** The three outputs of a loader: its result, *items and *max_group_id. */
  datatype LoadResult = LoadResult(ok: bool, items: seq<GroupConfigItem>, maxGroupId: int)

  /** After the loop: on an early return nothing more happens; otherwise the maximum is incremented. */
  function Finish(s: Scan): (r: LoadResult)
    ensures r.items == s.items
    ensures r.ok ==> !s.failed && r.items != [] && r.maxGroupId == s.maxGroupId + 1
    ensures s.failed ==> !r.ok && r.maxGroupId == s.maxGroupId
  {
    if s.failed then LoadResult(false, s.items, s.maxGroupId)
    else LoadResult(s.items != [], s.items, s.maxGroupId + 1)
  }

  /** The items the candidates carry, in input order. */
  function Accepted(cs: seq<Candidate>): seq<GroupConfigItem>
    decreases |cs|
  {
    if cs == [] then []
    else Accepted(cs[..|cs| - 1]) + (if cs[|cs| - 1].Parsed? then [cs[|cs| - 1].item] else [])
  }

  /** No candidate is malformed and every item is valid. */
  predicate WellFormed(cs: seq<Candidate>)
  {
    forall i :: 0 <= i < |cs| ==> !cs[i].Malformed? && (cs[i].Parsed? ==> ValidItem(cs[i].item))
  }

  /** The running maximum of the group ids, starting from 0. */
  function MaxGroupIdOf(items: seq<GroupConfigItem>): int
    decreases |items|
  {
    if items == [] then 0
    else
      var m := MaxGroupIdOf(items[..|items| - 1]);
      if m < items[|items| - 1].groupId then items[|items| - 1].groupId else m
  }

  lemma {:induction false} MaxGroupIdOfBounds(items: seq<GroupConfigItem>)
    requires forall i :: 0 <= i < |items| ==> items[i].groupId >= 0
    ensures forall i :: 0 <= i < |items| ==> items[i].groupId <= MaxGroupIdOf(items)
    ensures items != [] ==> exists i :: 0 <= i < |items| && items[i].groupId == MaxGroupIdOf(items)
    decreases |items|
  {
    if items != [] {
      var init := items[..|items| - 1];
      MaxGroupIdOfBounds(init);
      assert forall i :: 0 <= i < |init| ==> items[i] == init[i];
      if init == [] {
        assert items[0].groupId >= 0 == MaxGroupIdOf(init);
      } else {
        var k :| 0 <= k < |init| && init[k].groupId == MaxGroupIdOf(init);
        assert items[k] == init[k];
      }
    }
  }

  lemma DistinctIdsAppend(items: seq<GroupConfigItem>, item: GroupConfigItem)
    ensures DistinctIds(items + [item]) <==> DistinctIds(items) && item.groupId as int !in GroupIds(items)
  {
    var all := items + [item];
    assert forall i :: 0 <= i < |items| ==> all[i] == items[i];
    assert all[|items|] == item;
    if DistinctIds(all) {
      forall x | x in GroupIds(items) ensures x != item.groupId as int {
        var i :| 0 <= i < |items| && items[i].groupId as int == x;
      }
    }
  }

  lemma DistinctIdsPrefix(items: seq<GroupConfigItem>, more: seq<GroupConfigItem>)
    ensures DistinctIds(items + more) ==> DistinctIds(items)
  {
    assert forall i :: 0 <= i < |items| ==> (items + more)[i] == items[i];
  }

  /** Once the loop has returned false, later candidates change nothing. */
  lemma {:induction false} FailureIsFinal(cs: seq<Candidate>, k: nat)
    requires k <= |cs| && ScanAll(cs[..k]).failed
    ensures ScanAll(cs) == ScanAll(cs[..k])
    decreases |cs|
  {
    if k < |cs| {
      var init := cs[..|cs| - 1];
      assert init[..k] == cs[..k];
      FailureIsFinal(init, k);
    } else {
      assert cs[..k] == cs;
    }
  }

  lemma WellFormedSnoc(cs: seq<Candidate>)
    requires cs != []
    ensures WellFormed(cs) <==>
      && WellFormed(cs[..|cs| - 1])
      && !cs[|cs| - 1].Malformed?
      && (cs[|cs| - 1].Parsed? ==> ValidItem(cs[|cs| - 1].item))
  {
    assert forall i :: 0 <= i < |cs| - 1 ==> cs[..|cs| - 1][i] == cs[i];
  }

  lemma ValidConfigSnoc(items: seq<GroupConfigItem>, item: GroupConfigItem)
    ensures ValidConfig(items + [item]) <==> ValidConfig(items) && ValidItem(item) && item.groupId as int !in GroupIds(items)
  {
    DistinctIdsAppend(items, item);
    assert forall i :: 0 <= i < |items| ==> (items + [item])[i] == items[i];
    assert (items + [item])[|items|] == item;
  }

  lemma AcceptedSnoc(cs: seq<Candidate>)
    requires cs != []
    ensures Accepted(cs) == Accepted(cs[..|cs| - 1]) + (if cs[|cs| - 1].Parsed? then [cs[|cs| - 1].item] else [])
  {
  }

  lemma MaxGroupIdOfSnoc(items: seq<GroupConfigItem>, item: GroupConfigItem)
    ensures MaxGroupIdOf(items + [item]) == if MaxGroupIdOf(items) < item.groupId then item.groupId as int else MaxGroupIdOf(items)
  {
    assert (items + [item])[..|items|] == items;
  }

  /**
    * The loop, characterised: its items always form a valid configuration; it
    * runs to the end exactly when no candidate is malformed, every item is
    * valid and no group id repeats; and then it has kept every item, in
    * order, with the running maximum of their ids.
    */
  lemma {:induction false} ScanAllMeaning(cs: seq<Candidate>)
    ensures ValidConfig(ScanAll(cs).items)
    ensures !ScanAll(cs).failed <==> WellFormed(cs) && DistinctIds(Accepted(cs))
    ensures !ScanAll(cs).failed ==>
      ScanAll(cs).items == Accepted(cs) && ScanAll(cs).maxGroupId == MaxGroupIdOf(Accepted(cs))
    decreases |cs|
  {
    if cs != [] {
      var init := cs[..|cs| - 1];
      var c := cs[|cs| - 1];
      ScanAllMeaning(init);
      WellFormedSnoc(cs);
      AcceptedSnoc(cs);
      var s := ScanAll(init);
      var acc := Accepted(init);
      DistinctIdsPrefix(acc, if c.Parsed? then [c.item] else []);
      if !s.failed && c.Parsed? {
        DistinctIdsAppend(acc, c.item);
        ValidConfigSnoc(acc, c.item);
        MaxGroupIdOfSnoc(acc, c.item);
      }
    }
  }

  /**
    * What a loader reports: success exactly when the input is well formed,
    * has no repeated group id and yields at least one item; on success the
    * items are all of them in input order and max_group_id is the largest
    * id plus one. Whatever happens the items form a valid configuration.
    */
  lemma LoadResultMeaning(cs: seq<Candidate>)
    ensures ValidConfig(Finish(ScanAll(cs)).items)
    ensures Finish(ScanAll(cs)).ok <==> WellFormed(cs) && DistinctIds(Accepted(cs)) && Accepted(cs) != []
    ensures Finish(ScanAll(cs)).ok ==>
      var r := Finish(ScanAll(cs));
      && r.items == Accepted(cs)
      && (forall i :: 0 <= i < |r.items| ==> r.items[i].groupId < r.maxGroupId)
      && (exists i :: 0 <= i < |r.items| && r.items[i].groupId == r.maxGroupId - 1)
  {
    ScanAllMeaning(cs);
    var s := ScanAll(cs);
    if !s.failed && s.items != [] {
      MaxGroupIdOfBounds(s.items);
    }
  }

  lemma {:induction false} AcceptedPrefix(cs: seq<Candidate>, k: nat)
    requires k <= |cs|
    ensures |Accepted(cs[..k])| <= |Accepted(cs)|
    ensures Accepted(cs)[..|Accepted(cs[..k])|] == Accepted(cs[..k])
    decreases |cs|
  {
    if k == |cs| {
      assert cs[..k] == cs;
    } else {
      var init := cs[..|cs| - 1];
      assert init[..k] == cs[..k];
      AcceptedPrefix(init, k);
    }
  }

  /** A parsed candidate's item stands in Accepted after the items of the candidates before it. */
  lemma AcceptedPosition(cs: seq<Candidate>, i: nat)
    requires i < |cs| && cs[i].Parsed?
    ensures |Accepted(cs[..i])| < |Accepted(cs)|
    ensures Accepted(cs)[|Accepted(cs[..i])|] == cs[i].item
    ensures |Accepted(cs[..i + 1])| == |Accepted(cs[..i])| + 1
  {
    AcceptedPrefix(cs, i + 1);
    assert cs[..i + 1][..i] == cs[..i];
    assert Accepted(cs[..i + 1]) == Accepted(cs[..i]) + [cs[i].item];
  }

  /** Two candidates carrying the same group id make the loader fail, wherever they stand. */
  lemma DuplicateGroupIdRejected(cs: seq<Candidate>, i: nat, j: nat)
    requires i < j < |cs|
    requires cs[i].Parsed? && cs[j].Parsed? && cs[i].item.groupId == cs[j].item.groupId
    ensures !Finish(ScanAll(cs)).ok
  {
    ScanAllMeaning(cs);
    AcceptedPosition(cs, i);
    AcceptedPosition(cs, j);
    AcceptedPrefix(cs[..j], i + 1);
    assert cs[..j][..i + 1] == cs[..i + 1];
    var acc := Accepted(cs);
    var ki, kj := |Accepted(cs[..i])|, |Accepted(cs[..j])|;
    assert ki < kj && acc[ki].groupId == acc[kj].groupId;
  }

  lemma {:induction false} AcceptedAllParsed(cs: seq<Candidate>)
    requires forall i :: 0 <= i < |cs| ==> cs[i].Parsed?
    ensures |Accepted(cs)| == |cs|
    ensures forall i :: 0 <= i < |cs| ==> Accepted(cs)[i] == cs[i].item
    decreases |cs|
  {
    if cs != [] {
      var init := cs[..|cs| - 1];
      AcceptedAllParsed(init);
      assert forall i :: 0 <= i < |init| ==> cs[i] == init[i];
    }
  }

  // ---------------------------------------------------------------------
  // The loaders.
  // ---------------------------------------------------------------------

  /**
    * The body both loaders share for one item: check it, refuse a group id
    * already seen, then append it and raise the running maximum.
    */
  method Admit(c: Candidate, items: seq<GroupConfigItem>, maxGroupId: int, dedup: set<int>)
    returns (failed: bool, items': seq<GroupConfigItem>, maxGroupId': int, dedup': set<int>)
    requires !c.Skip? && dedup == GroupIds(items)
    ensures Step(Scan(false, items, maxGroupId), c) == Scan(failed, items', maxGroupId')
    ensures dedup' == GroupIds(items')
  {
    items', maxGroupId', dedup' := items, maxGroupId, dedup;
    if c.Malformed? {
      return true, items', maxGroupId', dedup';
    }
    var item := c.item;
    if !CheckGroupConfigItem(item) || item.groupId as int in dedup {
      return true, items', maxGroupId', dedup';
    }
    assert GroupIds(items + [item]) == dedup + {item.groupId as int} by {
      assert forall k :: 0 <= k < |items| ==> (items + [item])[k] == items[k];
      assert (items + [item])[|items|] == item;
    }
    items' := items + [item];
    dedup' := dedup + {item.groupId as int};
    if maxGroupId < item.groupId {
      maxGroupId' := item.groupId;
    }
    failed := false;
  }

  /**
    * ParseGroupConfig: the inline form, one token per comma-separated item.
    * It clears the items, then admits each token in turn, returning false at
    * the first malformed token, invalid item or repeated group id.
    */
  method ParseGroupConfig(tokens: seq<seq<Option<int32>>>) returns (ok: bool, items: seq<GroupConfigItem>, maxGroupId: int)
    ensures LoadResult(ok, items, maxGroupId) == Finish(ScanAll(TokenCandidates(tokens)))
    ensures ValidConfig(items)
    ensures ok <==> tokens != [] && (forall i :: 0 <= i < |tokens| ==> TokenAccepted(tokens[i])) && TokenIdsDistinct(tokens)
    ensures ok ==> |items| == |tokens| && forall i :: 0 <= i < |tokens| ==> TokenCandidate(tokens[i]) == Parsed(items[i])
  {
    ghost var cs := TokenCandidates(tokens);
    items := [];
    maxGroupId := 0;
    var dedup: set<int> := {};
    var i := 0;
    while i < |tokens|
      invariant 0 <= i <= |tokens|
      invariant ScanAll(cs[..i]) == Scan(false, items, maxGroupId)
      invariant dedup == GroupIds(items)
    {
      ScanAllSnoc(cs, i);
      var failed;
      failed, items, maxGroupId, dedup := Admit(TokenCandidate(tokens[i]), items, maxGroupId, dedup);
      if failed {
        FailureIsFinal(cs, i + 1);
        ok := false;
        TokensLoadMeaning(tokens);
        return;
      }
      i := i + 1;
    }
    assert cs[..|tokens|] == cs;
    maxGroupId := maxGroupId + 1;
    ok := items != [];
    TokensLoadMeaning(tokens);
  }

  /** A token that yields a valid item. */
  predicate TokenAccepted(fields: seq<Option<int32>>)
  {
    TokenCandidate(fields).Parsed? && ValidItem(TokenCandidate(fields).item)
  }

  /** No two tokens that parse name the same group. */
  predicate TokenIdsDistinct(tokens: seq<seq<Option<int32>>>)
  {
    forall i, j :: 0 <= i < j < |tokens| && TokenCandidate(tokens[i]).Parsed? && TokenCandidate(tokens[j]).Parsed? ==>
      TokenCandidate(tokens[i]).item.groupId != TokenCandidate(tokens[j]).item.groupId
  }

  /**
    * The inline form, stated on the tokens: it succeeds exactly when there is
    * a token, every token gives a valid item and no two give the same group
    * id; it then returns one item per token, in order.
    */
  lemma TokensLoadMeaning(tokens: seq<seq<Option<int32>>>)
    ensures var r := Finish(ScanAll(TokenCandidates(tokens)));
      && ValidConfig(r.items)
      && (r.ok <==> tokens != [] && (forall i :: 0 <= i < |tokens| ==> TokenAccepted(tokens[i])) && TokenIdsDistinct(tokens))
      && (r.ok ==> |r.items| == |tokens| && forall i :: 0 <= i < |tokens| ==> TokenCandidate(tokens[i]) == Parsed(r.items[i]))
  {
    var cs := TokenCandidates(tokens);
    LoadResultMeaning(cs);
    var r := Finish(ScanAll(cs));
    assert forall i :: 0 <= i < |tokens| ==> cs[i] == TokenCandidate(tokens[i]);
    if WellFormed(cs) {
      assert forall k :: 0 <= k < |cs| ==> cs[k].Parsed? by {
        forall k | 0 <= k < |cs| ensures cs[k].Parsed? {
          assert !cs[k].Malformed? && !cs[k].Skip?;
        }
      }
      AcceptedAllParsed(cs);
      assert forall i :: 0 <= i < |tokens| ==> TokenAccepted(tokens[i]);
      assert DistinctIds(Accepted(cs)) <==> TokenIdsDistinct(tokens);
    }
    if tokens != [] && forall i :: 0 <= i < |tokens| ==> TokenAccepted(tokens[i]) {
      assert WellFormed(cs);
    }
  }

  /**
    * The line loop of LoadGroupConfig: the file form, one item per line.
    * Comment lines are skipped; any other line must yield three integers.
    */
  method LoadGroupConfigLines(lines: seq<string>) returns (ok: bool, items: seq<GroupConfigItem>, maxGroupId: int)
    ensures LoadResult(ok, items, maxGroupId) == Finish(ScanAll(LineCandidates(lines)))
    ensures ValidConfig(items)
    ensures ok ==> items == Accepted(LineCandidates(lines)) && items != []
  {
    ghost var cs := LineCandidates(lines);
    items := [];
    maxGroupId := 0;
    var dedup: set<int> := {};
    var i := 0;
    while i < |lines|
      invariant 0 <= i <= |lines|
      invariant ScanAll(cs[..i]) == Scan(false, items, maxGroupId)
      invariant dedup == GroupIds(items)
    {
      ScanAllSnoc(cs, i);
      var line := lines[i];
      if IsCommentLine(line) {
        i := i + 1;
        continue;
      }
      var parsed := ExtractThreeInts(line);
      var c := if parsed.None? then Malformed else Parsed(parsed.value);
      var failed;
      failed, items, maxGroupId, dedup := Admit(c, items, maxGroupId, dedup);
      if failed {
        FailureIsFinal(cs, i + 1);
        ok := false;
        LoadResultMeaning(cs);
        return;
      }
      i := i + 1;
    }
    assert cs[..|lines|] == cs;
    maxGroupId := maxGroupId + 1;
    ok := items != [];
    LoadResultMeaning(cs);
  }

  /**
    * LoadGroupConfig: a file that cannot be opened (None) is refused before
    * the outputs are touched; otherwise its lines are loaded.
    */
  method LoadGroupConfig(file: Option<seq<string>>, items0: seq<GroupConfigItem>, maxGroupId0: int)
    returns (ok: bool, items: seq<GroupConfigItem>, maxGroupId: int)
    ensures file.None? ==> !ok && items == items0 && maxGroupId == maxGroupId0
    ensures file.Some? ==> LoadResult(ok, items, maxGroupId) == Finish(ScanAll(LineCandidates(file.value)))
    ensures ok ==> ValidConfig(items) && items != []
  {
    if file.None? {
      return false, items0, maxGroupId0;
    }
    ok, items, maxGroupId := LoadGroupConfigLines(file.value);
  }

  /** A repeated group id fails the inline form. */
  lemma DuplicateTokenRejected(tokens: seq<seq<Option<int32>>>, i: nat, j: nat)
    requires i < j < |tokens|
    requires TokenCandidate(tokens[i]).Parsed? && TokenCandidate(tokens[j]).Parsed?
    requires TokenCandidate(tokens[i]).item.groupId == TokenCandidate(tokens[j]).item.groupId
    ensures !Finish(ScanAll(TokenCandidates(tokens))).ok
  {
    DuplicateGroupIdRejected(TokenCandidates(tokens), i, j);
  }

  /** A repeated group id fails the file form, whatever lines lie between. */
  lemma DuplicateLineRejected(lines: seq<string>, i: nat, j: nat)
    requires i < j < |lines|
    requires LineCandidate(lines[i]).Parsed? && LineCandidate(lines[j]).Parsed?
    requires LineCandidate(lines[i]).item.groupId == LineCandidate(lines[j]).item.groupId
    ensures !Finish(ScanAll(LineCandidates(lines))).ok
  {
    DuplicateGroupIdRejected(LineCandidates(lines), i, j);
  }

  /** An input that is empty or all comments yields no item and is refused. */
  lemma NothingLoadedIsFailure(cs: seq<Candidate>)
    requires forall i :: 0 <= i < |cs| ==> cs[i].Skip?
    ensures !Finish(ScanAll(cs)).ok
  {
    LoadResultMeaning(cs);
    if cs != [] {
      AcceptedNoItems(cs);
    }
  }

  lemma {:induction false} AcceptedNoItems(cs: seq<Candidate>)
    requires forall i :: 0 <= i < |cs| ==> cs[i].Skip?
    ensures Accepted(cs) == []
    decreases |cs|
  {
    if cs != [] {
      AcceptedNoItems(cs[..|cs| - 1]);
    }
  }

  /** The inline example "1:4,2:8": two one-row items and a maximum of 3. */
  lemma InlineExample()
    ensures Finish(ScanAll(TokenCandidates([[Some(1), Some(4)], [Some(2), Some(8)]])))
         == LoadResult(true, [GroupConfigItem(1, 1, 4), GroupConfigItem(2, 1, 8)], 3)
  {
    var cs := TokenCandidates([[Some(1), Some(4)], [Some(2), Some(8)]]);
    assert cs == [Parsed(GroupConfigItem(1, 1, 4)), Parsed(GroupConfigItem(2, 1, 8))];
    assert cs[..1] == [Parsed(GroupConfigItem(1, 1, 4))];
    assert cs[..1][..0] == [];
    assert 2 !in GroupIds([GroupConfigItem(1, 1, 4)]);
  }

  // ---------------------------------------------------------------------
  // Writing a configuration as a file and loading it back.
  // ---------------------------------------------------------------------

  /** The file line of one item: `group_id embedding_row embedding_col`. */
  function FormatLine(item: GroupConfigItem): string
  {
    IntToString(item.groupId) + " " + IntToString(item.embeddingRow) + " " + IntToString(item.embeddingCol)
  }

  function FormatLines(items: seq<GroupConfigItem>): (lines: seq<string>)
    ensures |lines| == |items|
  {
    seq(|items|, i requires 0 <= i < |items| => FormatLine(items[i]))
  }

  /** Characters a formatted line is made of. */
  predicate NumberChars(s: string)
  {
    forall i :: 0 <= i < |s| ==> IsDigit(s[i]) || s[i] == '-' || s[i] == ' '
  }

  lemma IntToStringChars(x: int)
    ensures NumberChars(IntToString(x))
  {
    var s := IntToString(x);
    if x < 0 {
      assert forall i :: 1 <= i < |s| ==> s[i] == Dec(-x)[i - 1];
    }
  }

  lemma NumberCharsConcat(a: string, b: string)
    requires NumberChars(a) && NumberChars(b)
    ensures NumberChars(a + b)
  {
    assert forall i :: |a| <= i < |a + b| ==> (a + b)[i] == b[i - |a|];
  }

  lemma NumberCharsNoComment(s: string)
    requires NumberChars(s)
    ensures !IsCommentLine(s)
  {
    assert forall k :: 0 <= k < |s| ==> s[k] != '#';
  }

  lemma FormatLineNotComment(item: GroupConfigItem)
    ensures !IsCommentLine(FormatLine(item))
  {
    var g, r, c := IntToString(item.groupId), IntToString(item.embeddingRow), IntToString(item.embeddingCol);
    IntToStringChars(item.groupId);
    IntToStringChars(item.embeddingRow);
    IntToStringChars(item.embeddingCol);
    NumberCharsConcat(g, " ");
    NumberCharsConcat(g + " ", r);
    NumberCharsConcat(g + " " + r, " ");
    NumberCharsConcat(g + " " + r + " ", c);
    NumberCharsNoComment(FormatLine(item));
  }

  /** `>>` skips leading white space before the number. */
  lemma ExtractIntSkipsSpace(s: string)
    requires s != [] && IsSpace(s[0])
    ensures ExtractInt(s) == ExtractInt(s[1..])
  {
    assert SkipSpace(s) == SkipSpace(s[1..]);
  }

  lemma ExtractIntAfterSpace(x: int32, rest: string)
    requires rest == [] || !IsDigit(rest[0])
    ensures ExtractInt(" " + IntToString(x) + rest) == Some((x, rest))
  {
    var t := " " + IntToString(x) + rest;
    assert t[1..] == IntToString(x) + rest;
    ExtractIntSkipsSpace(t);
    ExtractIntRoundTrip(x, rest);
  }

  /** Three successful extractions in a row give the item. */
  lemma ExtractThreeIntsOf(line: string, item: GroupConfigItem, rest1: string, rest2: string, rest3: string)
    requires ExtractInt(line) == Some((item.groupId, rest1))
    requires ExtractInt(rest1) == Some((item.embeddingRow, rest2))
    requires ExtractInt(rest2) == Some((item.embeddingCol, rest3))
    ensures ExtractThreeInts(line) == Some(item)
  {
  }

  /** The text a formatted line has left after its first number. */
  function AfterGroupId(item: GroupConfigItem): string
  {
    " " + IntToString(item.embeddingRow) + " " + IntToString(item.embeddingCol)
  }

  lemma FirstIntOfLine(item: GroupConfigItem)
    ensures ExtractInt(FormatLine(item)) == Some((item.groupId, AfterGroupId(item)))
  {
    var rest1 := AfterGroupId(item);
    assert FormatLine(item) == IntToString(item.groupId) + rest1;
    assert rest1[0] == ' ';
    ExtractIntRoundTrip(item.groupId, rest1);
  }

  lemma SecondIntOfLine(item: GroupConfigItem)
    ensures ExtractInt(AfterGroupId(item)) == Some((item.embeddingRow, " " + IntToString(item.embeddingCol)))
  {
    var rest2 := " " + IntToString(item.embeddingCol);
    assert AfterGroupId(item) == " " + IntToString(item.embeddingRow) + rest2;
    assert rest2[0] == ' ';
    ExtractIntAfterSpace(item.embeddingRow, rest2);
  }

  lemma ThirdIntOfLine(item: GroupConfigItem)
    ensures ExtractInt(" " + IntToString(item.embeddingCol)) == Some((item.embeddingCol, []))
  {
    assert " " + IntToString(item.embeddingCol) == " " + IntToString(item.embeddingCol) + [];
    ExtractIntAfterSpace(item.embeddingCol, []);
  }

  lemma FormatLineExtract(item: GroupConfigItem)
    ensures ExtractThreeInts(FormatLine(item)) == Some(item)
  {
    FirstIntOfLine(item);
    SecondIntOfLine(item);
    ThirdIntOfLine(item);
    ExtractThreeIntsOf(FormatLine(item), item, AfterGroupId(item), " " + IntToString(item.embeddingCol), []);
  }

  /** A formatted line is read back as the item it was made from. */
  lemma LineRoundTrip(item: GroupConfigItem)
    ensures LineCandidate(FormatLine(item)) == Parsed(item)
  {
    FormatLineNotComment(item);
    FormatLineExtract(item);
  }

  /** Writing a valid, non-empty configuration one line per item and loading it gives it back. */
  lemma LoadFormattedConfig(items: seq<GroupConfigItem>)
    requires ValidConfig(items) && items != []
    ensures Finish(ScanAll(LineCandidates(FormatLines(items)))) == LoadResult(true, items, MaxGroupIdOf(items) + 1)
  {
    var cs := LineCandidates(FormatLines(items));
    forall i | 0 <= i < |cs| ensures cs[i] == Parsed(items[i]) {
      LineRoundTrip(items[i]);
    }
    AcceptedAllParsed(cs);
    assert Accepted(cs) == items;
    assert WellFormed(cs);
    ScanAllMeaning(cs);
  }

  // ---------------------------------------------------------------------
  // Derived views.
  // ---------------------------------------------------------------------

  /** The LR projection of items: same ids and rows, in the same order, every col 1. */
  predicate IsLRProjection(items: seq<GroupConfigItem>, lr: seq<GroupConfigItem>)
  {
    && |lr| == |items|
    && forall i :: 0 <= i < |items| ==>
         lr[i].groupId == items[i].groupId && lr[i].embeddingRow == items[i].embeddingRow && lr[i].embeddingCol == 1
  }

  /** GetLRGroupConfig */
  method GetLRGroupConfig(items: seq<GroupConfigItem>) returns (lr: seq<GroupConfigItem>)
    ensures IsLRProjection(items, lr)
  {
    lr := [];
    for i := 0 to |items|
      invariant |lr| == i
      invariant forall k :: 0 <= k < i ==>
        lr[k].groupId == items[k].groupId && lr[k].embeddingRow == items[k].embeddingRow && lr[k].embeddingCol == 1
    {
      lr := lr + [GroupConfigItem(items[i].groupId, items[i].embeddingRow, 1)];
    }
  }

  /** All items share the first item's col; an empty list is not an FM configuration. */
  predicate IsFM(items: seq<GroupConfigItem>)
  {
    items != [] && forall i :: 0 <= i < |items| ==> items[i].embeddingCol == items[0].embeddingCol
  }

  /** IsFMGroupConfig */
  method IsFMGroupConfig(items: seq<GroupConfigItem>) returns (fm: bool)
    ensures fm <==> IsFM(items)
  {
    if items == [] {
      return false;
    }
    var k := items[0].embeddingCol;
    for i := 0 to |items|
      invariant forall j :: 0 <= j < i ==> items[j].embeddingCol == k
    {
      if k != items[i].embeddingCol {
        return false;
      }
    }
    return true;
  }

  /** CheckFMGroupConfig: the same test, differing from IsFMGroupConfig only by its error log. */
  method CheckFMGroupConfig(items: seq<GroupConfigItem>) returns (fm: bool)
    ensures fm <==> items != [] && forall i, j :: 0 <= i < j < |items| ==> items[i].embeddingCol == items[j].embeddingCol
  {
    fm := IsFMGroupConfig(items);
  }

  /** The sum of the cols. */
  function SumCols(items: seq<GroupConfigItem>): int
    decreases |items|
  {
    if items == [] then 0 else SumCols(items[..|items| - 1]) + items[|items| - 1].embeddingCol
  }

  /** GetTotalEmbeddingCol */
  method GetTotalEmbeddingCol(items: seq<GroupConfigItem>) returns (total: int)
    ensures total == SumCols(items)
  {
    total := 0;
    for i := 0 to |items|
      invariant total == SumCols(items[..i])
    {
      assert items[..i + 1][..i] == items[..i];
      total := total + items[i].embeddingCol;
    }
    assert items[..|items|] == items;
  }

  /** When every col is k, the total width is |items| * k. */
  lemma {:induction false} SumColsUniform(items: seq<GroupConfigItem>, k: int)
    requires forall i :: 0 <= i < |items| ==> items[i].embeddingCol == k
    ensures SumCols(items) == |items| * k
    decreases |items|
  {
    if items != [] {
      var init := items[..|items| - 1];
      assert forall i :: 0 <= i < |init| ==> init[i] == items[i];
      SumColsUniform(init, k);
    }
  }

  /** The total width of an FM configuration is its number of groups times the shared col. */
  lemma FMTotalWidth(items: seq<GroupConfigItem>)
    requires IsFM(items)
    ensures SumCols(items) == |items| * items[0].embeddingCol
  {
    SumColsUniform(items, items[0].embeddingCol);
  }

  /** Every valid item is at least one column wide, so the total is at least the number of groups. */
  lemma {:induction false} SumColsAtLeastCount(items: seq<GroupConfigItem>)
    requires forall i :: 0 <= i < |items| ==> ValidItem(items[i])
    ensures SumCols(items) >= |items|
    decreases |items|
  {
    if items != [] {
      var init := items[..|items| - 1];
      assert forall i :: 0 <= i < |init| ==> init[i] == items[i];
      SumColsAtLeastCount(init);
    }
  }

  /**
    * The LR projection of a valid configuration is a valid configuration with
    * the same group ids; it is an FM configuration of width 1 per group.
    */
  lemma LRProjectionProperties(items: seq<GroupConfigItem>, lr: seq<GroupConfigItem>)
    requires IsLRProjection(items, lr)
    ensures ValidConfig(items) ==> ValidConfig(lr)
    ensures GroupIds(lr) == GroupIds(items)
    ensures items != [] ==> IsFM(lr)
    ensures SumCols(lr) == |items|
  {
    SumColsUniform(lr, 1);
    assert forall i :: 0 <= i < |lr| ==> lr[i].groupId as int == items[i].groupId as int;
    assert GroupIds(lr) == GroupIds(items) by {
      forall x | x in GroupIds(items) ensures x in GroupIds(lr) {
        var i :| 0 <= i < |items| && items[i].groupId as int == x;
        assert lr[i].groupId as int == x;
      }
    }
  }
}
