// Replies survive the wire.
module ResponseRoundTrip {
  import opened Common
  import opened Decimal
  import opened Tokenizer
  import opened Requests
  import opened RequestRoundTrip
  import opened Mpls
  import opened Responses

  lemma FirstOfField(fields: seq<Field>, i: nat, key: string)
    requires i < |fields| && fields[i].0 == key
    requires forall j :: 0 <= j < |fields| && j != i ==> fields[j].0 != key
    ensures First(FieldArgs(fields), key) == fields[i].1
  {
    SelectField(fields, i, {key});
  }

  lemma FirstOfNoField(fields: seq<Field>, key: string)
    requires forall j :: 0 <= j < |fields| ==> fields[j].0 != key
    ensures First(FieldArgs(fields), key) == None
  {
    SelectNoField(fields, {key});
  }

  lemma RttParses(n: u32)
    ensures ParseU32(PrintInt(n)) == Some(n)
  {
    StrtolReadsPrinted(n);
  }

  lemma AddressOfProbe(ip: IpText, addr: IpAddr, rtt: u32, mpls: seq<MplsLabel>)
    requires ip.Inverse() && WellFormedIp(addr)
    ensures ReadAddress(ip, FieldArgs(ProbeFields(ip, addr, rtt, mpls))) == Ok(addr)
    ensures HasAddress(FieldArgs(ProbeFields(ip, addr, rtt, mpls)))
  {
    hide FieldArgs, First, PrintInt, FormatText;
    var f := ProbeFields(ip, addr, rtt, mpls);
    if addr.V4? {
      FirstOfField(f, 0, "ip-4");
    } else {
      FirstOfField(f, 0, "ip-6");
      FirstOfNoField(f, "ip-4");
    }
  }

  lemma RttOfProbe(ip: IpText, addr: IpAddr, rtt: u32, mpls: seq<MplsLabel>)
    ensures ReadRtt(FieldArgs(ProbeFields(ip, addr, rtt, mpls))) == Ok(rtt)
  {
    hide FieldArgs, First, PrintInt, FormatText;
    FirstOfField(ProbeFields(ip, addr, rtt, mpls), 1, "round-trip-time");
    RttParses(rtt);
  }

  lemma LabelsOfProbe(ip: IpText, addr: IpAddr, rtt: u32, mpls: seq<MplsLabel>)
    requires |mpls| <= MAX_LABELS
    ensures ReadLabels(FieldArgs(ProbeFields(ip, addr, rtt, mpls))) == mpls
  {
    hide FieldArgs, First, PrintInt, FormatText;
    FirstOfField(ProbeFields(ip, addr, rtt, mpls), 2, "mpls");
    if mpls != [] {
      ParseOfFormat(mpls);
    }
  }

  lemma BareTextParses(b: BareReply)
    ensures ParseBare(BareText(b)) == Some(b)
  {
  }

  lemma ShortTextIsWord(b: BareReply)
    requires b in {NoReply, UnknownName, ProbesExhausted, PermissionDenied, AddressInUse}
    ensures IsWord(BareText(b))
  {
  }

  lemma MiddleTextIsWord(b: BareReply)
    requires b in {AddressNotAvailable, NetworkDown, HostDown, NoRouteNetwork, NoRoute}
    ensures IsWord(BareText(b))
  {
  }

  lemma LongTextIsWord(b: BareReply)
    requires b in {WaitTcpResponseTimeout, CommandParseError, CommandBufferOverflow}
    ensures IsWord(BareText(b))
  {
  }

  lemma BareTextIsWord(b: BareReply)
    ensures IsWord(BareText(b))
  {
    hide BareText;
    if b in {NoReply, UnknownName, ProbesExhausted, PermissionDenied, AddressInUse} {
      ShortTextIsWord(b);
    } else if b in {AddressNotAvailable, NetworkDown, HostDown, NoRouteNetwork, NoRoute} {
      MiddleTextIsWord(b);
    } else {
      LongTextIsWord(b);
    }
  }

  lemma BareTextIsOnlyBare(b: BareReply)
    ensures BareText(b) !in {"reply", "ttl-expired", "feature-support", "invalid-argument", "unexpected-error"}
  {
  }

  lemma ProbeOfFields(ip: IpText, k: ResponseKind)
    requires ip.Inverse() && Sendable(k) && k.Probe?
    ensures ParseKind(ip, ResponseName(k), FieldArgs(ResponseFields(ip, k))) == Ok(k)
  {
    hide FieldArgs, ProbeFields, ReadAddress, ReadRtt, ReadLabels, HasAddress, ParseKind, ResultText;
    AddressOfProbe(ip, k.addr, k.rtt, k.mpls);
    RttOfProbe(ip, k.addr, k.rtt, k.mpls);
    LabelsOfProbe(ip, k.addr, k.rtt, k.mpls);
    ResultParses(ip, k.result, FieldArgs(ResponseFields(ip, k)));
  }

  /** The result word selects the reading of a probe reply; `no-route-host` needs an address for it. */
  lemma ResultParses(ip: IpText, r: ProbeResult, args: seq<Pair>)
    requires HasAddress(args)
    ensures ParseKind(ip, ResultText(r), args) == ParseProbe(ip, args, r)
  {
    hide ParseProbe, HasAddress, ParseBare;
  }

  lemma OtherOfFields(ip: IpText, k: ResponseKind)
    requires Sendable(k) && !k.Probe?
    ensures ParseKind(ip, ResponseName(k), FieldArgs(ResponseFields(ip, k))) == Ok(k)
  {
    hide FieldArgs, First, PrintInt;
    var f := ResponseFields(ip, k);
    match k {
      case FeatureSupport(v) => FirstOfField(f, 0, "support");
      case InvalidArgument(Some(r)) => FirstOfField(f, 0, "reason");
      case InvalidArgument(None) => FirstOfNoField(f, "reason");
      case UnexpectedError(Some(n)) =>
        FirstOfField(f, 0, "errno");
        StrtolReadsPrinted(n);
      case UnexpectedError(None) => FirstOfNoField(f, "errno");
      case Bare(b) =>
        BareTextParses(b);
        BareTextIsOnlyBare(b);
        FirstOfNoField(f, "ip-4");
        FirstOfNoField(f, "ip-6");
    }
  }

  lemma ProbeFieldsAreWords(ip: IpText, addr: IpAddr, rtt: u32, mpls: seq<MplsLabel>)
    requires ip.Inverse() && WellFormedIp(addr) && |mpls| <= MAX_LABELS
    ensures forall j :: 0 <= j < 3 ==> WordField(ProbeFields(ip, addr, rtt, mpls)[j])
  {
    hide PrintInt, FormatText, ParseText;
    PrintedIsWord(rtt);
    if mpls != [] {
      ParseOfFormat(mpls);
    }
    assert WordField(ProbeFields(ip, addr, rtt, mpls)[0]);
    assert WordField(ProbeFields(ip, addr, rtt, mpls)[1]);
  }

  lemma ResultTextIsWord(r: ProbeResult)
    ensures IsWord(ResultText(r))
  {
  }

  lemma OtherNamesAreWords()
    ensures IsWord("feature-support") && IsWord("invalid-argument") && IsWord("unexpected-error")
  {
  }

  lemma NameIsWord(k: ResponseKind)
    ensures IsWord(ResponseName(k))
  {
    hide BareText, ResultText, IsWord;
    OtherNamesAreWords();
    match k {
      case Probe(result, _, _, _) => ResultTextIsWord(result);
      case Bare(b) => BareTextIsWord(b);
      case _ =>
    }
  }

  lemma KeysAreWords()
    ensures IsWord("support") && IsWord("reason") && IsWord("errno")
  {
  }

  lemma ReasonIsWord(r: InvalidReason)
    ensures IsWord(ReasonText(r))
  {
  }

  lemma ResponseFieldsAreWords(ip: IpText, k: ResponseKind)
    requires ip.Inverse() && Sendable(k)
    ensures |ResponseFields(ip, k)| <= 3
    ensures forall j :: 0 <= j < |ResponseFields(ip, k)| ==> WordField(ResponseFields(ip, k)[j])
  {
    hide IsWord, PrintInt, ReasonText, ProbeFields;
    KeysAreWords();
    match k {
      case Probe(_, addr, rtt, mpls) => ProbeFieldsAreWords(ip, addr, rtt, mpls);
      case UnexpectedError(Some(n)) => PrintedIsWord(n);
      case InvalidArgument(Some(r)) => ReasonIsWord(r);
      case _ =>
    }
  }

  lemma ResponseTokenizes(ip: IpText, r: Response)
    requires ip.Inverse() && Sendable(r.kind)
    ensures Tokenize(ResponseText(ip, r))
            == Ok(Line(r.token, ResponseName(r.kind), FieldArgs(ResponseFields(ip, r.kind))))
  {
    NameIsWord(r.kind);
    ResponseFieldsAreWords(ip, r.kind);
    FieldArgsAreWords(ResponseFields(ip, r.kind));
    TokenizeLineText(r.token, ResponseName(r.kind), FieldArgs(ResponseFields(ip, r.kind)));
  }

  /** `parse(encode(r)) = r` for every reply the helper can send, any token, both forms of
      `no-route-host` included. */
  lemma ParseOfEncodeResponse(ip: IpText, r: Response)
    requires ip.Inverse() && Sendable(r.kind)
    ensures ParseResponse(ip, ResponseText(ip, r)) == Ok(r)
  {
    hide Tokenize, ParseKind, ResponseText;
    ResponseTokenizes(ip, r);
    if r.kind.Probe? {
      ProbeOfFields(ip, r.kind);
    } else {
      OtherOfFields(ip, r.kind);
    }
  }

  // ----- Lines the parser accepts -----

  lemma FirstIsWord(args: seq<Pair>, key: string)
    requires WordArgs(args)
    ensures First(args, key).Some? ==> IsWord(First(args, key).value)
  {
    SelectedAreArgs(args, {key});
    if Select(args, {key}) != [] {
      assert Select(args, {key})[0] in args;
    }
  }

  lemma ReadLabelsBound(args: seq<Pair>)
    ensures |ReadLabels(args)| <= MAX_LABELS
  {
    if First(args, "mpls").Some? {
      AtMostEightLabels(SplitCommas(First(args, "mpls").value), [], []);
    }
  }

  lemma ParsedKindIsSendable(ip: IpText, name: string, args: seq<Pair>)
    requires ip.Inverse() && WordArgs(args)
    ensures ParseKind(ip, name, args).Ok? ==> Sendable(ParseKind(ip, name, args).value)
  {
    FirstIsWord(args, "support");
    ReadLabelsBound(args);
    hide First, ReadLabels;
  }

  /** Every reply line the client accepts is one the helper could have sent; writing it again and
      reading it again loses nothing. */
  lemma ReencodeResponseIsStable(ip: IpText, line: string)
    requires ip.Inverse() && ParseResponse(ip, line).Ok?
    ensures Sendable(ParseResponse(ip, line).value.kind)
    ensures ParseResponse(ip, ResponseText(ip, ParseResponse(ip, line).value)) == ParseResponse(ip, line)
  {
    TokenizeGivesWords(line);
    var l := Tokenize(line).value;
    ParsedKindIsSendable(ip, l.name, l.args);
    hide Tokenize, ParseKind, ResponseText;
    ParseOfEncodeResponse(ip, ParseResponse(ip, line).value);
  }
}
