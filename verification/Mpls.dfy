// The flat MPLS label list of a reply line (mpls.rs).
module Mpls {
  import opened Common
  import opened Decimal
  import opened Tokenizer

  const MAX_LABELS := 8

  datatype MplsLabel = MplsLabel(value: u32, tc: byte, bottomOfStack: bool, ttl: byte)

  // ----- Comma lists -----

  function SplitCommas(s: string): (r: seq<string>)
    ensures r != []
  {
    if s == [] then [""]
    else
      var rest := SplitCommas(s[1..]);
      if s[0] == ',' then [""] + rest else [[s[0]] + rest[0]] + rest[1..]
  }

  function JoinCommas(fields: seq<string>): string {
    if fields == [] then ""
    else if |fields| == 1 then fields[0]
    else fields[0] + "," + JoinCommas(fields[1..])
  }

  predicate NoComma(s: string) {
    forall i :: 0 <= i < |s| ==> s[i] != ','
  }

  lemma {:induction false} SplitField(f: string, rest: string)
    requires NoComma(f)
    ensures SplitCommas(f) == [f]
    ensures SplitCommas(f + "," + rest) == [f] + SplitCommas(rest)
  {
    var all := f + "," + rest;
    if f == [] {
      assert all[1..] == rest;
    } else {
      SplitField(f[1..], rest);
      assert all[1..] == f[1..] + "," + rest;
      assert [f[0]] + f[1..] == f;
    }
  }

  lemma {:induction false} SplitOfJoin(fields: seq<string>)
    requires fields != [] && forall i :: 0 <= i < |fields| ==> NoComma(fields[i])
    ensures SplitCommas(JoinCommas(fields)) == fields
  {
    if |fields| == 1 {
      SplitField(fields[0], "");
    } else {
      SplitOfJoin(fields[1..]);
      SplitField(fields[0], JoinCommas(fields[1..]));
    }
  }

  lemma {:induction false} JoinAppend(fields: seq<string>, f: string)
    requires fields != []
    ensures JoinCommas(fields + [f]) == JoinCommas(fields) + "," + f
  {
    var all := fields + [f];
    if |fields| > 1 {
      JoinAppend(fields[1..], f);
      assert all[1..] == fields[1..] + [f];
    } else {
      assert all[1..] == [f];
    }
  }

  // ----- Formatting -----

  function LabelFields(l: MplsLabel): seq<string> {
    [PrintInt(l.value), PrintInt(l.tc), PrintInt(if l.bottomOfStack then 1 else 0), PrintInt(l.ttl)]
  }

  function ListFields(labels: seq<MplsLabel>): (r: seq<string>)
    ensures |r| == 4 * |labels|
  {
    if labels == [] then [] else ListFields(labels[..|labels| - 1]) + LabelFields(labels[|labels| - 1])
  }

  function FormatText(labels: seq<MplsLabel>): string {
    JoinCommas(ListFields(labels))
  }

  /** `"{},{},{},{}"` */
  function LabelText(l: MplsLabel): string {
    PrintInt(l.value) + "," + PrintInt(l.tc) + "," + PrintInt(if l.bottomOfStack then 1 else 0) + "," + PrintInt(l.ttl)
  }

  lemma Assoc(x: string, y: string, z: string)
    ensures x + (y + z) == (x + y) + z
  {
  }

  lemma JoinFour(fields: seq<string>, a: string, b: string, c: string, d: string)
    ensures JoinCommas(fields + [a, b, c, d])
            == (if fields == [] then "" else JoinCommas(fields) + ",") + (a + "," + b + "," + c + "," + d)
  {
    var head := if fields == [] then "" else JoinCommas(fields) + ",";
    if fields != [] {
      JoinAppend(fields, a);
    } else {
      assert fields + [a] == [a];
    }
    hide JoinCommas;
    JoinAppend(fields + [a], b);
    JoinAppend(fields + [a] + [b], c);
    JoinAppend(fields + [a] + [b] + [c], d);
    assert fields + [a] + [b] + [c] + [d] == fields + [a, b, c, d];
    Assoc(head, a, ",");
    Assoc(head, a + ",", b);
    Assoc(head, a + "," + b, ",");
    Assoc(head, a + "," + b + ",", c);
    Assoc(head, a + "," + b + "," + c, ",");
    Assoc(head, a + "," + b + "," + c + ",", d);
  }

  /** `format_mpls_list`: each label is pushed onto the growing string. */
  method FormatMplsList(labels: seq<MplsLabel>, prefix: string) returns (out: string)
    ensures out == prefix + FormatText(labels)
  {
    hide PrintInt;
    out := prefix;
    for i := 0 to |labels|
      invariant out == prefix + FormatText(labels[..i])
    {
      var l := labels[i];
      ghost var before := ListFields(labels[..i]);
      assert labels[..i + 1][..i] == labels[..i];
      assert ListFields(labels[..i + 1]) == before + LabelFields(l);
      JoinFour(before, PrintInt(l.value), PrintInt(l.tc), PrintInt(if l.bottomOfStack then 1 else 0), PrintInt(l.ttl));
      if i > 0 {
        out := out + ",";
      }
      out := out + LabelText(l);
    }
    assert labels[..|labels|] == labels;
  }

  // ----- Parsing -----

  function MakeLabel(group: seq<u32>): MplsLabel
    requires |group| == 4
  {
    MplsLabel(group[0], group[1] % 256, group[2] != 0, group[3] % 256)
  }

  /** Fields are taken in groups of four until eight labels are complete; what follows the eighth
      is never looked at, and a partial group at the end is dropped. */
  function ReadFields(fields: seq<string>, labels: seq<MplsLabel>, group: seq<u32>): Option<seq<MplsLabel>>
    requires |group| < 4
  {
    if fields == [] || |labels| >= MAX_LABELS then Some(labels)
    else
      match ParseI64(fields[0])
      case None => None
      case Some(v) =>
        var g := group + [WrapU32(v)];
        if |g| == 4 then ReadFields(fields[1..], labels + [MakeLabel(g)], [])
        else ReadFields(fields[1..], labels, g)
  }

  /** A list with a bad field among those looked at is refused as a whole, and the error quotes it. */
  function ParseText(s: string): Result<seq<MplsLabel>, ParseError> {
    Listed(s, ReadFields(SplitCommas(s), [], []))
  }

  function Listed(s: string, labels: Option<seq<MplsLabel>>): Result<seq<MplsLabel>, ParseError> {
    match labels
    case Some(ls) => Ok(ls)
    case None => Err(MalformedMpls(s))
  }

  /** `parse_mpls_list`: the loop over the split fields, with its early break. */
  method ParseMplsList(s: string) returns (r: Result<seq<MplsLabel>, ParseError>)
    ensures r == ParseText(s)
  {
    var fields := SplitCommas(s);
    var labels: seq<MplsLabel> := [];
    var group: seq<u32> := [];
    var i := 0;
    assert fields[0..] == fields;
    while i < |fields|
      invariant 0 <= i <= |fields| && |group| < 4
      invariant Listed(s, ReadFields(fields[i..], labels, group)) == ParseText(s)
    {
      if |labels| >= MAX_LABELS {
        break;
      }
      assert fields[i..][1..] == fields[i + 1..];
      var v := ParseI64(fields[i]);
      if v.None? {
        return Err(MalformedMpls(s));
      }
      group := group + [WrapU32(v.value)];
      if |group| == 4 {
        labels := labels + [MakeLabel(group)];
        group := [];
      }
      i := i + 1;
    }
    r := Ok(labels);
  }

  lemma {:induction false} AtMostEightLabels(fields: seq<string>, labels: seq<MplsLabel>, group: seq<u32>)
    requires |group| < 4 && |labels| <= MAX_LABELS
    ensures ReadFields(fields, labels, group).Some? ==> |ReadFields(fields, labels, group).value| <= MAX_LABELS
    decreases |fields|
  {
    if fields != [] && |labels| < MAX_LABELS && ParseI64(fields[0]).Some? {
      var g := group + [WrapU32(ParseI64(fields[0]).value)];
      if |g| == 4 {
        AtMostEightLabels(fields[1..], labels + [MakeLabel(g)], []);
      } else {
        AtMostEightLabels(fields[1..], labels, g);
      }
    }
  }

  lemma ReadStep(field: string, v: u32, rest: seq<string>, labels: seq<MplsLabel>, group: seq<u32>)
    requires |labels| < MAX_LABELS && |group| < 4 && ParseI64(field) == Some(v)
    ensures ReadFields([field] + rest, labels, group)
            == if |group| == 3 then ReadFields(rest, labels + [MakeLabel(group + [v])], [])
               else ReadFields(rest, labels, group + [v])
  {
    hide ParseI64;
    assert ([field] + rest)[1..] == rest && WrapU32(v) == v;
  }

  lemma ReadsGroup(f: seq<string>, g: seq<u32>, rest: seq<string>, labels: seq<MplsLabel>)
    requires |f| == 4 && |g| == 4 && |labels| < MAX_LABELS
    requires forall i :: 0 <= i < 4 ==> ParseI64(f[i]) == Some(g[i])
    ensures ReadFields(f + rest, labels, []) == ReadFields(rest, labels + [MakeLabel(g)], [])
  {
    hide ParseI64, ReadFields;
    ReadStep(f[0], g[0], f[1..] + rest, labels, []);
    assert [f[0]] + (f[1..] + rest) == f + rest && [] + [g[0]] == g[..1];
    ReadStep(f[1], g[1], f[2..] + rest, labels, g[..1]);
    assert [f[1]] + (f[2..] + rest) == f[1..] + rest && g[..1] + [g[1]] == g[..2];
    ReadStep(f[2], g[2], f[3..] + rest, labels, g[..2]);
    assert [f[2]] + (f[3..] + rest) == f[2..] + rest && g[..2] + [g[2]] == g[..3];
    ReadStep(f[3], g[3], rest, labels, g[..3]);
    assert [f[3]] + rest == f[3..] + rest && g[..3] + [g[3]] == g;
  }

  lemma PrintedParses(n: u32)
    ensures ParseI64(PrintInt(n)) == Some(n)
  {
    StrtolReadsPrinted(n);
  }

  function LabelGroup(l: MplsLabel): seq<u32> {
    [l.value, l.tc, if l.bottomOfStack then 1 else 0, l.ttl]
  }

  lemma LabelFieldsParse(l: MplsLabel)
    ensures forall i :: 0 <= i < 4 ==> ParseI64(LabelFields(l)[i]) == Some(LabelGroup(l)[i])
  {
    hide PrintInt, ParseI64;
    PrintedParses(l.value);
    PrintedParses(l.tc);
    PrintedParses(if l.bottomOfStack then 1 else 0);
    PrintedParses(l.ttl);
  }

  lemma ReadsOneLabel(l: MplsLabel, rest: seq<string>, labels: seq<MplsLabel>)
    requires |labels| < MAX_LABELS
    ensures ReadFields(LabelFields(l) + rest, labels, []) == ReadFields(rest, labels + [l], [])
  {
    hide PrintInt, ParseI64, ReadFields;
    LabelFieldsParse(l);
    ReadsGroup(LabelFields(l), LabelGroup(l), rest, labels);
    assert MakeLabel(LabelGroup(l)) == l;
  }

  /** Reading back a formatted list, whatever fields follow it. */
  lemma {:induction false} ReadsLabels(labels: seq<MplsLabel>, rest: seq<string>, before: seq<MplsLabel>)
    requires |before| + |labels| <= MAX_LABELS
    ensures ReadFields(ListFields(labels) + rest, before, []) == ReadFields(rest, before + labels, [])
  {
    hide ReadFields, LabelFields, ParseI64;
    if labels == [] {
      assert ListFields(labels) + rest == rest && before + labels == before;
    } else {
      var n := |labels| - 1;
      var l := labels[n];
      ReadsLabels(labels[..n], LabelFields(l) + rest, before);
      assert ListFields(labels) + rest == ListFields(labels[..n]) + (LabelFields(l) + rest);
      ReadsOneLabel(l, rest, before + labels[..n]);
      assert before + labels[..n] + [l] == before + labels;
    }
  }

  predicate FieldChars(s: string) {
    s != [] && forall i :: 0 <= i < |s| ==> IsDigit(s[i]) || s[i] == ','
  }

  lemma {:induction false} ListFieldsAreDigits(labels: seq<MplsLabel>)
    ensures forall i :: 0 <= i < |ListFields(labels)| ==>
                          ListFields(labels)[i] != [] && AllDigits(ListFields(labels)[i])
  {
    if labels != [] {
      var l := labels[|labels| - 1];
      ListFieldsAreDigits(labels[..|labels| - 1]);
      PrintNatRoundTrip(l.value);
      PrintNatRoundTrip(l.tc);
      PrintNatRoundTrip(if l.bottomOfStack then 1 else 0);
      PrintNatRoundTrip(l.ttl);
    }
  }

  lemma {:induction false} JoinedChars(fields: seq<string>)
    requires fields != [] && forall i :: 0 <= i < |fields| ==> fields[i] != [] && AllDigits(fields[i])
    ensures FieldChars(JoinCommas(fields))
  {
    if |fields| > 1 {
      JoinedChars(fields[1..]);
    }
  }

  /** At most eight labels survive the list, which is one protocol word. */
  lemma ParseOfFormat(labels: seq<MplsLabel>)
    requires 0 < |labels| <= MAX_LABELS
    ensures ParseText(FormatText(labels)) == Ok(labels) && IsWord(FormatText(labels))
  {
    ListFieldsAreDigits(labels);
    JoinedChars(ListFields(labels));
    SplitOfJoin(ListFields(labels));
    ReadsLabels(labels, [], []);
    assert ListFields(labels) + [] == ListFields(labels) && [] + labels == labels;
  }

  /** Anything after eight labels is ignored, even if it is not a number. */
  lemma GarbageAfterEightIsIgnored(labels: seq<MplsLabel>, garbage: seq<string>)
    requires |labels| == MAX_LABELS
    requires forall i :: 0 <= i < |garbage| ==> NoComma(garbage[i])
    ensures ParseText(JoinCommas(ListFields(labels) + garbage)) == Ok(labels)
  {
    ListFieldsAreDigits(labels);
    SplitOfJoin(ListFields(labels) + garbage);
    ReadsLabels(labels, garbage, []);
    assert [] + labels == labels;
  }

  // ----- Lists nobody formatted -----

  lemma ReadNumber(field: string, rest: seq<string>, labels: seq<MplsLabel>, group: seq<u32>)
    requires |labels| < MAX_LABELS && |group| < 4 && ParseI64(field).Some?
    ensures ReadFields([field] + rest, labels, group)
            == var g := group + [ParseI64(field).value % 0x1_0000_0000];
               if |g| == 4 then ReadFields(rest, labels + [MakeLabel(g)], []) else ReadFields(rest, labels, g)
  {
    hide ParseI64;
    assert ([field] + rest)[1..] == rest;
  }

  /** Any four 64-bit numbers make a label: the first is kept to 32 bits, traffic class and TTL to 8,
      and the flag is whether the low 32 bits are non-zero. */
  lemma NumbersNarrow(f: seq<string>)
    requires |f| == 4 && forall i :: 0 <= i < 4 ==> NoComma(f[i]) && ParseI64(f[i]).Some?
    ensures ParseText(f[0] + "," + f[1] + "," + f[2] + "," + f[3])
            == Ok([MplsLabel(ParseI64(f[0]).value % 0x1_0000_0000, ParseI64(f[1]).value % 256,
                             ParseI64(f[2]).value % 0x1_0000_0000 != 0, ParseI64(f[3]).value % 256)])
  {
    hide ParseI64, ReadFields;
    var n: seq<u32> := seq(4, i requires 0 <= i < 4 => ParseI64(f[i]).value % 0x1_0000_0000);
    JoinFour([], f[0], f[1], f[2], f[3]);
    assert [] + [f[0], f[1], f[2], f[3]] == f;
    assert "" + (f[0] + "," + f[1] + "," + f[2] + "," + f[3]) == f[0] + "," + f[1] + "," + f[2] + "," + f[3];
    SplitOfJoin(f);
    FourNumbers(f, n);
    LowByteOfLow(ParseI64(f[1]).value);
    LowByteOfLow(ParseI64(f[3]).value);
  }

  lemma LowByteOfLow(n: int)
    ensures n % 0x1_0000_0000 % 256 == n % 256
  {
  }

  lemma FourNumbers(f: seq<string>, n: seq<u32>)
    requires |f| == 4 && |n| == 4
    requires forall i :: 0 <= i < 4 ==> ParseI64(f[i]).Some? && n[i] == ParseI64(f[i]).value % 0x1_0000_0000
    ensures ReadFields(f, [], []) == Some([MakeLabel(n)])
  {
    assert ReadFields([], [MakeLabel(n)], []) == Some([MakeLabel(n)]);
    hide ParseI64, ReadFields;
    assert f == [f[0]] + ([f[1]] + ([f[2]] + ([f[3]] + [])));
    ReadNumber(f[0], [f[1]] + ([f[2]] + ([f[3]] + [])), [], []);
    ReadNumber(f[1], [f[2]] + ([f[3]] + []), [], [n[0]]);
    ReadNumber(f[2], [f[3]] + [], [], [n[0], n[1]]);
    ReadNumber(f[3], [], [], [n[0], n[1], n[2]]);
    assert [] + [n[0]] == [n[0]] && [n[0]] + [n[1]] == [n[0], n[1]] && [n[0], n[1]] + [n[2]] == [n[0], n[1], n[2]];
    assert [n[0], n[1], n[2]] + [n[3]] == n && [] + [MakeLabel(n)] == [MakeLabel(n)];
  }

  /** Up to three numbers behind the last label are dropped; a field among them that is no number
      refuses the whole list, provided there is still room for a label. */
  lemma IncompleteGroup(labels: seq<MplsLabel>, extra: seq<string>, k: nat)
    requires |labels| < MAX_LABELS && 0 < |extra| < 4 && k <= |extra|
    requires forall i :: 0 <= i < |extra| ==> NoComma(extra[i])
    requires forall i :: 0 <= i < k ==> ParseI64(extra[i]).Some?
    requires k < |extra| ==> ParseI64(extra[k]).None?
    ensures var s := JoinCommas(ListFields(labels) + extra);
            ParseText(s) == if k == |extra| then Ok(labels) else Err(MalformedMpls(s))
  {
    ListFieldsAreDigits(labels);
    SplitOfJoin(ListFields(labels) + extra);
    ReadsLabels(labels, extra, []);
    assert [] + labels == labels;
    ReadsPart(extra, labels, [], k);
  }

  lemma {:induction false} ReadsPart(extra: seq<string>, labels: seq<MplsLabel>, group: seq<u32>, k: nat)
    requires |labels| < MAX_LABELS && |group| + |extra| < 4 && k <= |extra|
    requires forall i :: 0 <= i < k ==> ParseI64(extra[i]).Some?
    requires k < |extra| ==> ParseI64(extra[k]).None?
    ensures ReadFields(extra, labels, group) == if k == |extra| then Some(labels) else None
    decreases |extra|
  {
    hide ParseI64;
    if extra != [] && k > 0 {
      ReadsPart(extra[1..], labels, group + [WrapU32(ParseI64(extra[0]).value)], k - 1);
    }
  }
}
