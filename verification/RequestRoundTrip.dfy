// Requests survive the wire: parsing undoes encoding, and re-encoding what was parsed is stable.
module RequestRoundTrip {
  import opened Common
  import opened Decimal
  import opened Tokenizer
  import opened Requests

  lemma {:induction false} SelectNoField(fields: seq<Field>, keys: set<string>)
    requires forall j :: 0 <= j < |fields| ==> fields[j].0 !in keys
    ensures Select(FieldArgs(fields), keys) == []
  {
    if fields != [] {
      var n := |fields| - 1;
      SelectNoField(fields[..n], keys);
      SelectAppend(FieldArgs(fields[..n]), FieldArg(fields[n]), keys);
    }
  }

  /** Looking up names that only field `i` carries finds that field. */
  lemma {:induction false} SelectField(fields: seq<Field>, i: nat, keys: set<string>)
    requires i < |fields|
    requires forall j :: 0 <= j < |fields| ==> (fields[j].0 in keys <==> j == i)
    ensures Select(FieldArgs(fields), keys) == FieldArg(fields[i])
  {
    var n := |fields| - 1;
    SelectAppend(FieldArgs(fields[..n]), FieldArg(fields[n]), keys);
    if i == n {
      SelectNoField(fields[..n], keys);
      SelectPush([], (fields[n].0, ""), keys);
      if fields[n].1.Some? {
        assert FieldArg(fields[n])[1..] == [];
      }
    } else {
      SelectField(fields[..n], i, keys);
      assert Select(FieldArg(fields[n]), keys) == [];
    }
  }

  lemma SelectTarget(ip: IpText, p: ProbeParams)
    ensures Select(ParamArgs(ip, p), {"ip-4", "ip-6"}) == [(ip.Key(p.target), ip.show(p.target))]
  {
    SelectField(Fields(ip, p), 0, {"ip-4", "ip-6"});
  }

  lemma SelectLocal(ip: IpText, p: ProbeParams)
    ensures Select(ParamArgs(ip, p), {"local-ip-4", "local-ip-6"}) == FieldArg(LocalField(ip, p.localIp))
  {
    SelectField(Fields(ip, p), 1, {"local-ip-4", "local-ip-6"});
  }

  lemma SelectProtocol(ip: IpText, p: ProbeParams)
    ensures Select(ParamArgs(ip, p), {"protocol"}) == [("protocol", ProtocolText(p.protocol))]
  {
    SelectField(Fields(ip, p), 2, {"protocol"});
  }

  lemma SelectSize(ip: IpText, p: ProbeParams)
    ensures Select(ParamArgs(ip, p), {"size"}) == FieldArg(("size", NumText(p.size)))
  {
    SelectField(Fields(ip, p), 3, {"size"});
  }

  lemma SelectPattern(ip: IpText, p: ProbeParams)
    ensures Select(ParamArgs(ip, p), {"bit-pattern"}) == FieldArg(("bit-pattern", NumText(p.bitPattern)))
  {
    SelectField(Fields(ip, p), 4, {"bit-pattern"});
  }

  lemma SelectTos(ip: IpText, p: ProbeParams)
    ensures Select(ParamArgs(ip, p), {"tos"}) == FieldArg(("tos", NumText(p.tos)))
  {
    SelectField(Fields(ip, p), 5, {"tos"});
  }

  lemma SelectTtl(ip: IpText, p: ProbeParams)
    ensures Select(ParamArgs(ip, p), {"ttl"}) == FieldArg(("ttl", NumText(p.ttl)))
  {
    SelectField(Fields(ip, p), 6, {"ttl"});
  }

  lemma SelectTimeout(ip: IpText, p: ProbeParams)
    ensures Select(ParamArgs(ip, p), {"timeout"}) == FieldArg(("timeout", NumText(p.timeout)))
  {
    SelectField(Fields(ip, p), 7, {"timeout"});
  }

  lemma SelectPort(ip: IpText, p: ProbeParams)
    ensures Select(ParamArgs(ip, p), {"port"}) == FieldArg(("port", NumText(p.port)))
  {
    SelectField(Fields(ip, p), 8, {"port"});
  }

  lemma SelectLocalPort(ip: IpText, p: ProbeParams)
    ensures Select(ParamArgs(ip, p), {"local-port"}) == FieldArg(("local-port", NumText(p.localPort)))
  {
    SelectField(Fields(ip, p), 9, {"local-port"});
  }

  lemma SelectMark(ip: IpText, p: ProbeParams)
    ensures Select(ParamArgs(ip, p), {"mark"}) == FieldArg(("mark", NumText(p.mark)))
  {
    SelectField(Fields(ip, p), 10, {"mark"});
  }

  lemma SelectDevice(ip: IpText, p: ProbeParams)
    ensures Select(ParamArgs(ip, p), {"local-device"}) == FieldArg(("local-device", p.localDevice))
  {
    SelectField(Fields(ip, p), 11, {"local-device"});
  }

  lemma NumOfField(args: seq<Pair>, key: string, value: Option<int>, limit: int)
    requires 0 <= limit <= 0x1_0000_0000
    requires value.Some? ==> 0 <= value.value < limit
    requires Select(args, {key}) == FieldArg((key, NumText(value)))
    ensures Num(args, key, limit) == Ok(value)
  {
    if value.Some? {
      StrtolReadsPrinted(value.value);
      NumPush([], (key, PrintInt(value.value)), limit);
      assert [] + [(key, PrintInt(value.value))] == Select(args, {key});
    }
  }

  lemma ProtocolTextParses(p: Protocol)
    ensures ParseProtocol(ProtocolText(p)) == Some(p) && IsWord(ProtocolText(p))
  {
  }

  lemma FeatureTextParses(f: Feature)
    ensures ParseFeature(FeatureText(f)) == Some(f) && IsWord(FeatureText(f))
  {
  }

  lemma TextsOfArgs(ip: IpText, p: ProbeParams)
    requires ip.Inverse() && WellFormed(p)
    ensures TargetValue(ip, LastOf(ParamArgs(ip, p), {"ip-4", "ip-6"})) == Ok(p.target)
    ensures LocalValue(ip, p.target.V4?, LastOf(ParamArgs(ip, p), {"local-ip-4", "local-ip-6"})) == Ok(p.localIp)
    ensures Last(ParamArgs(ip, p), "local-device") == p.localDevice
  {
    SelectTarget(ip, p);
    SelectLocal(ip, p);
    SelectDevice(ip, p);
  }

  lemma ProtocolOfArgs(ip: IpText, p: ProbeParams)
    ensures ProtocolValue(Select(ParamArgs(ip, p), {"protocol"})) == Ok(p.protocol)
  {
    SelectProtocol(ip, p);
    ProtocolTextParses(p.protocol);
    assert [("protocol", ProtocolText(p.protocol))][..0] == [];
  }

  lemma PatternOfField(occurrences: seq<Pair>, value: Option<byte>)
    requires occurrences == FieldArg(("bit-pattern", NumText(value)))
    ensures PatternValue(occurrences) == Ok(value)
  {
    if value.Some? {
      StrtolReadsPrinted(value.value);
      PatternPush([], occurrences[0]);
      assert [] + [occurrences[0]] == occurrences;
    }
  }

  lemma PatternOfArgs(ip: IpText, p: ProbeParams)
    ensures PatternValue(Select(ParamArgs(ip, p), {"bit-pattern"})) == Ok(p.bitPattern)
  {
    SelectPattern(ip, p);
    PatternOfField(Select(ParamArgs(ip, p), {"bit-pattern"}), p.bitPattern);
  }

  lemma NumbersOfArgs(ip: IpText, p: ProbeParams)
    ensures NumbersOf(ParamArgs(ip, p))
            == Ok(Numbers(p.size, p.tos, p.ttl, p.timeout, p.port, p.localPort, p.mark))
  {
    var args := ParamArgs(ip, p);
    SelectSize(ip, p);
    SelectTos(ip, p);
    SelectTtl(ip, p);
    SelectTimeout(ip, p);
    SelectPort(ip, p);
    SelectLocalPort(ip, p);
    SelectMark(ip, p);
    NumOfField(args, "size", p.size, 0x1_0000);
    NumOfField(args, "tos", p.tos, 0x100);
    NumOfField(args, "ttl", p.ttl, 0x100);
    NumOfField(args, "timeout", p.timeout, 0x1_0000_0000);
    NumOfField(args, "port", p.port, 0x1_0000);
    NumOfField(args, "local-port", p.localPort, 0x1_0000);
    NumOfField(args, "mark", p.mark, 0x1_0000_0000);
  }

  /** Decoding the encoded arguments gives the parameters back. */
  lemma ParamsOfArgs(ip: IpText, p: ProbeParams)
    requires ip.Inverse() && WellFormed(p)
    ensures ParamsOf(ip, ParamArgs(ip, p)) == Ok(p)
  {
    TextsOfArgs(ip, p);
    ProtocolOfArgs(ip, p);
    PatternOfArgs(ip, p);
    NumbersOfArgs(ip, p);
  }

  predicate WordField(f: Field) {
    IsWord(f.0) && (f.1.Some? ==> IsWord(f.1.value))
  }

  lemma {:induction false} FieldArgsAreWords(fields: seq<Field>)
    requires forall j :: 0 <= j < |fields| ==> WordField(fields[j])
    ensures WordArgs(FieldArgs(fields)) && |FieldArgs(fields)| <= |fields|
  {
    if fields != [] {
      FieldArgsAreWords(fields[..|fields| - 1]);
    }
  }

  lemma NumFieldIsWord(key: string, value: Option<int>)
    requires IsWord(key)
    ensures WordField((key, NumText(value)))
  {
    if value.Some? {
      PrintedIsWord(value.value);
    }
  }

  lemma NumFieldsAreWords(ip: IpText, p: ProbeParams)
    ensures forall j :: 3 <= j < 11 ==> WordField(Fields(ip, p)[j])
  {
    NumFieldIsWord("size", p.size);
    NumFieldIsWord("bit-pattern", p.bitPattern);
    NumFieldIsWord("tos", p.tos);
    NumFieldIsWord("ttl", p.ttl);
    NumFieldIsWord("timeout", p.timeout);
    NumFieldIsWord("port", p.port);
    NumFieldIsWord("local-port", p.localPort);
    NumFieldIsWord("mark", p.mark);
  }

  lemma TextFieldsAreWords(ip: IpText, p: ProbeParams)
    requires ip.Inverse() && WellFormed(p)
    ensures forall j :: 0 <= j < 3 || j == 11 ==> WordField(Fields(ip, p)[j])
  {
    ProtocolTextParses(p.protocol);
  }

  lemma ParamArgsAreWords(ip: IpText, p: ProbeParams)
    requires ip.Inverse() && WellFormed(p)
    ensures WordArgs(ParamArgs(ip, p)) && |ParamArgs(ip, p)| <= 12
  {
    NumFieldsAreWords(ip, p);
    TextFieldsAreWords(ip, p);
    FieldArgsAreWords(Fields(ip, p));
  }

  ghost predicate Encodable(r: Request) {
    r.kind.SendProbe? ==> WellFormed(r.kind.params)
  }

  lemma RequestTokenizes(ip: IpText, r: Request)
    requires ip.Inverse() && Encodable(r)
    ensures Tokenize(EncodeText(ip, r)) == Ok(Line(r.token, RequestName(r.kind), RequestArgs(ip, r.kind)))
  {
    match r.kind {
      case CheckSupport(f) => FeatureTextParses(f);
      case SendProbe(p) => ParamArgsAreWords(ip, p);
    }
    TokenizeLineText(r.token, RequestName(r.kind), RequestArgs(ip, r.kind));
  }

  /** `parse(encode(r)) = r` for every request the client can build. */
  lemma ParseOfEncode(ip: IpText, r: Request)
    requires ip.Inverse() && Encodable(r)
    ensures Parse(ip, EncodeText(ip, r)) == Ok(r)
  {
    RequestTokenizes(ip, r);
    match r.kind {
      case CheckSupport(f) =>
        FeatureTextParses(f);
        SelectPush([], ("feature", FeatureText(f)), {"feature"});
        assert [] + [("feature", FeatureText(f))] == RequestArgs(ip, r.kind);
      case SendProbe(p) => ParamsOfArgs(ip, p);
    }
  }

  lemma LastIsWord(args: seq<Pair>, key: string)
    requires WordArgs(args)
    ensures Last(args, key).Some? ==> IsWord(Last(args, key).value)
  {
    SelectedAreArgs(args, {key});
    var vs := Select(args, {key});
    if vs != [] {
      assert vs[|vs| - 1] in args;
    }
  }

  lemma ParamsOfAreWellFormed(ip: IpText, args: seq<Pair>)
    requires ip.Inverse() && WordArgs(args)
    ensures ParamsOf(ip, args).Ok? ==> WellFormed(ParamsOf(ip, args).value)
  {
    LastIsWord(args, "local-device");
  }

  /** Any line the strict parser accepts denotes a request that can be encoded... */
  lemma ParsedIsEncodable(ip: IpText, line: string)
    requires ip.Inverse()
    ensures Parse(ip, line).Ok? ==> Encodable(Parse(ip, line).value)
  {
    TokenizeGivesWords(line);
    if Tokenize(line).Ok? {
      ParamsOfAreWellFormed(ip, Tokenize(line).value.args);
    }
  }

  /** ... and writing that request again loses nothing. */
  lemma ReencodeIsStable(ip: IpText, line: string)
    requires ip.Inverse() && Parse(ip, line).Ok?
    ensures Parse(ip, EncodeText(ip, Parse(ip, line).value)) == Parse(ip, line)
  {
    ParsedIsEncodable(ip, line);
    ParseOfEncode(ip, Parse(ip, line).value);
  }
}
