/** The configuration descriptor a virtual device builds, and what a host that walks it finds (USB 2.0, section 9.6). */
module ConfigDescriptor {
  import opened Basics
  import opened Bytes

  const CONFIGURATION: byte := 2
  const INTERFACE: byte := 4
  const ENDPOINT: byte := 5

  datatype Endpoint = Endpoint(address: byte, attributes: byte, maxPacketSize: u16, interval: byte)

  /** classSpecific is what the interface's handler contributes, such as a HID or CDC descriptor chain. */
  datatype Interface = Interface(classCode: byte, subclass: byte, protocol: byte, stringIndex: byte,
                                 classSpecific: seq<byte>, endpoints: seq<Endpoint>)

  datatype Device = Device(interfaces: seq<Interface>, configurationValue: byte, configurationString: byte)

  // ----- what is built -----

  function Low(n: nat): byte {
    n % 0x100
  }

  function High(n: nat): byte {
    n / 0x100 % 0x100
  }

  function EndpointBytes(ep: Endpoint): (b: seq<byte>)
    ensures |b| == 7
  {
    [7, ENDPOINT, ep.address, ep.attributes, Low(ep.maxPacketSize), High(ep.maxPacketSize), ep.interval]
  }

  function EndpointsBytes(eps: seq<Endpoint>): seq<byte> {
    if eps == [] then [] else EndpointsBytes(eps[..|eps| - 1]) + EndpointBytes(eps[|eps| - 1])
  }

  function InterfaceHeader(i: nat, intf: Interface): (b: seq<byte>)
    ensures |b| == 9
  {
    [9, INTERFACE, Low(i), 0, Low(|intf.endpoints|), intf.classCode, intf.subclass, intf.protocol, intf.stringIndex]
  }

  function InterfaceBytes(i: nat, intf: Interface): seq<byte> {
    InterfaceHeader(i, intf) + intf.classSpecific + EndpointsBytes(intf.endpoints)
  }

  function InterfacesBytes(intfs: seq<Interface>): seq<byte> {
    if intfs == [] then []
    else InterfacesBytes(intfs[..|intfs| - 1]) + InterfaceBytes(|intfs| - 1, intfs[|intfs| - 1])
  }

  function ConfigurationHeader(d: Device, total: nat): (b: seq<byte>)
    ensures |b| == 9
  {
    [9, CONFIGURATION, Low(total), High(total), Low(|d.interfaces|), d.configurationValue, d.configurationString,
     0x80, 0x32]
  }

  function Configuration(d: Device): seq<byte> {
    ConfigurationHeader(d, 9 + |InterfacesBytes(d.interfaces)|) + InterfacesBytes(d.interfaces)
  }

  /** One interface's part: header, class-specific descriptors, then a loop over the endpoints. */
  method InterfaceDescriptor(i: nat, intf: Interface) returns (intfDesc: seq<byte>)
    ensures intfDesc == InterfaceBytes(i, intf)
  {
    intfDesc := InterfaceHeader(i, intf);
    intfDesc := intfDesc + intf.classSpecific;
    for j := 0 to |intf.endpoints|
      invariant intfDesc == InterfaceHeader(i, intf) + intf.classSpecific + EndpointsBytes(intf.endpoints[..j])
    {
      assert intf.endpoints[..j + 1][..j] == intf.endpoints[..j];
      intfDesc := intfDesc + EndpointBytes(intf.endpoints[j]);
    }
    assert intf.endpoints[..|intf.endpoints|] == intf.endpoints;
  }

  lemma Patched(d: Device, rest: seq<byte>, size: nat)
    ensures (ConfigurationHeader(d, 0) + rest)[2 := Low(size)][3 := High(size)] == ConfigurationHeader(d, size) + rest
  {
  }

  /** The builder: a loop appends the interfaces, then bytes 2 and 3 are patched and the reply is cut to the length
      asked for. */
  method GetConfigurationDescriptor(d: Device, descriptorLength: u16) returns (desc: seq<byte>)
    ensures desc == Configuration(d)[..Min(descriptorLength, |Configuration(d)|)]
  {
    desc := ConfigurationHeader(d, 0);
    for i := 0 to |d.interfaces|
      invariant desc == ConfigurationHeader(d, 0) + InterfacesBytes(d.interfaces[..i])
    {
      var intfDesc := InterfaceDescriptor(i, d.interfaces[i]);
      assert d.interfaces[..i + 1][..i] == d.interfaces[..i];
      desc := desc + intfDesc;
    }
    assert d.interfaces[..|d.interfaces|] == d.interfaces;
    var size := |desc|;
    Patched(d, InterfacesBytes(d.interfaces), size);
    desc := desc[2 := Low(size)];
    desc := desc[3 := High(size)];
    assert desc == Configuration(d);
    if descriptorLength < |desc| {
      desc := desc[..descriptorLength];
    } else {
      assert desc[..|desc|] == desc;
    }
  }

  // ----- what a host finds -----

  /** The descriptors met by stepping through `b` by bLength; None if a step is too short or leaves `b`. */
  function Walk(b: seq<byte>): Option<seq<seq<byte>>>
    decreases |b|
  {
    if b == [] then Some([])
    else if b[0] < 2 || b[0] > |b| then None
    else match Walk(b[b[0]..])
      case None => None
      case Some(rest) => Some([b[..b[0]]] + rest)
  }

  /** An interface as a host sees it; `own` are the class's descriptors that belong to it. */
  datatype HostInterface = HostInterface(number: byte, alternate: byte, numEndpoints: byte, classCode: byte,
                                         subclass: byte, protocol: byte, stringIndex: byte,
                                         own: seq<byte>, endpoints: seq<Endpoint>)

  /** The fields of an interface descriptor (USB 2.0, table 9-12). */
  function Begin(desc: seq<byte>): HostInterface
    requires |desc| == 9
  {
    HostInterface(desc[2], desc[3], desc[4], desc[5], desc[6], desc[7], desc[8], [], [])
  }

  /** The fields of an endpoint descriptor (USB 2.0, table 9-13). */
  function WithEndpoint(g: HostInterface, desc: seq<byte>): HostInterface
    requires |desc| == 7
  {
    g.(endpoints := g.endpoints + [Endpoint(desc[2], desc[3], Weigh(0, 0, desc[5], desc[4]), desc[6])])
  }

  /** A class's own descriptors belong to the interface before them as long as no endpoint has come. */
  function WithOwn(g: HostInterface, desc: seq<byte>): HostInterface {
    if g.endpoints == [] then g.(own := g.own + desc) else g
  }

  /** Endpoints belong to the interface descriptor before them. */
  function Group(descs: seq<seq<byte>>): seq<HostInterface> {
    if descs == [] then []
    else
      var before, desc := Group(descs[..|descs| - 1]), descs[|descs| - 1];
      if |desc| == 9 && desc[1] == 4 then before + [Begin(desc)]
      else if before == [] then before
      else if |desc| == 7 && desc[1] == 5 then before[|before| - 1 := WithEndpoint(before[|before| - 1], desc)]
      else before[|before| - 1 := WithOwn(before[|before| - 1], desc)]
  }

  /** What is in the device, as a host should see it. */
  function Expected(i: nat, intf: Interface): HostInterface {
    HostInterface(i % 256, 0, |intf.endpoints| % 256, intf.classCode, intf.subclass, intf.protocol, intf.stringIndex,
                  intf.classSpecific, intf.endpoints)
  }

  function AllExpected(intfs: seq<Interface>): (h: seq<HostInterface>)
    ensures |h| == |intfs|
  {
    if intfs == [] then [] else AllExpected(intfs[..|intfs| - 1]) + [Expected(|intfs| - 1, intfs[|intfs| - 1])]
  }

  /** A chain of descriptors of the class's own types. */
  predicate OwnChain(b: seq<byte>) {
    && Walk(b).Some?
    && forall k | 0 <= k < |Walk(b).value| :: |Walk(b).value[k]| >= 2 && Walk(b).value[k][1] !in {INTERFACE, ENDPOINT}
  }

  const HID: byte := 0x21
  const HID_REPORT: byte := 0x22
  const CS_INTERFACE: byte := 0x24

  /** The HID handler's contribution: one descriptor naming the report descriptor and its size. */
  function HidDescriptor(reportSize: u16): seq<byte> {
    [9, HID, 0x11, 0x01, 0, 1, HID_REPORT, Low(reportSize), High(reportSize)]
  }

  /** The CDC communication handler's: header, call management, ACM and union functional descriptors. */
  const CDC_HEADER: seq<byte> := [5, CS_INTERFACE, 0, 0x10, 0x01]
  const CDC_CALL_MANAGEMENT: seq<byte> := [5, CS_INTERFACE, 1, 0, 1]
  const CDC_ACM: seq<byte> := [4, CS_INTERFACE, 2, 2]
  const CDC_UNION: seq<byte> := [5, CS_INTERFACE, 6, 0, 1]

  lemma {:induction false} WalkAppend(a: seq<byte>, b: seq<byte>)
    requires Walk(a).Some? && Walk(b).Some?
    ensures Walk(a + b) == Some(Walk(a).value + Walk(b).value)
    decreases |a|
  {
    if a == [] {
      assert a + b == b && [] + Walk(b).value == Walk(b).value;
    } else {
      var n := a[0];
      assert (a + b)[..n] == a[..n] && (a + b)[n..] == a[n..] + b;
      WalkAppend(a[n..], b);
      var rest := Walk(a[n..]).value;
      assert [a[..n]] + (rest + Walk(b).value) == [a[..n]] + rest + Walk(b).value;
    }
  }

  lemma WalkOne(desc: seq<byte>)
    requires |desc| >= 2 && desc[0] == |desc|
    ensures Walk(desc) == Some([desc])
  {
    assert desc[desc[0]..] == [] && desc[..desc[0]] == desc;
    assert [desc] + [] == [desc];
  }

  /** A host finds the report descriptor and its size (Device Class Definition for HID 1.11, section 6.2.1). */
  predicate IsHidDescriptor(b: seq<byte>, reportSize: nat) {
    && |b| == 9 && b[0] == 9 && b[1] == 0x21 && b[3] == 0x01 && b[2] == 0x11 && b[4] == 0
    && b[5] == 1 && b[6] == 0x22 && Weigh(0, 0, b[8], b[7]) == reportSize
  }

  /** What the built-in handlers contribute is well-formed: the host can read the report size, and finds the CDC header,
      call management, ACM and union descriptors (CDC 1.2, section 5.2.3). */
  lemma BuiltInChains(reportSize: u16)
    ensures OwnChain(HidDescriptor(reportSize)) && IsHidDescriptor(HidDescriptor(reportSize), reportSize)
    ensures var cdc := CDC_HEADER + CDC_CALL_MANAGEMENT + CDC_ACM + CDC_UNION;
            && OwnChain(cdc)
            && Walk(cdc).value == [[5, 0x24, 0, 0x10, 0x01], [5, 0x24, 1, 0, 1], [4, 0x24, 2, 2], [5, 0x24, 6, 0, 1]]
  {
    WalkOne(HidDescriptor(reportSize));
    WalkOne(CDC_HEADER);
    WalkOne(CDC_CALL_MANAGEMENT);
    WalkOne(CDC_ACM);
    WalkOne(CDC_UNION);
    WalkAppend(CDC_HEADER, CDC_CALL_MANAGEMENT);
    WalkAppend(CDC_HEADER + CDC_CALL_MANAGEMENT, CDC_ACM);
    WalkAppend(CDC_HEADER + CDC_CALL_MANAGEMENT + CDC_ACM, CDC_UNION);
  }

  /** Stepping through a chain loses no byte. */
  lemma {:induction false} WalkIsWhole(b: seq<byte>)
    requires Walk(b).Some?
    ensures Flatten(Walk(b).value) == b
    decreases |b|
  {
    if b != [] {
      WalkIsWhole(b[b[0]..]);
      assert b == b[..b[0]] + b[b[0]..];
    }
  }

  lemma OwnFollows(descs: seq<seq<byte>>)
    requires descs != [] && |descs[|descs| - 1]| >= 2 && descs[|descs| - 1][1] !in {INTERFACE, ENDPOINT}
    requires Group(descs[..|descs| - 1]) != []
    ensures var before := Group(descs[..|descs| - 1]);
            Group(descs) == before[|before| - 1 := WithOwn(before[|before| - 1], descs[|descs| - 1])]
  {
  }

  /** The class's own descriptors, behind an interface descriptor. */
  lemma {:induction false} GroupOwn(descs: seq<seq<byte>>, own: seq<seq<byte>>)
    requires forall k | 0 <= k < |own| :: |own[k]| >= 2 && own[k][1] !in {INTERFACE, ENDPOINT}
    requires Group(descs) != [] && Group(descs)[|Group(descs)| - 1].endpoints == []
    requires Group(descs)[|Group(descs)| - 1].own == []
    ensures var g := Group(descs);
            Group(descs + own) == g[..|g| - 1] + [g[|g| - 1].(own := Flatten(own))]
    decreases |own|
  {
    var g := Group(descs);
    var last := g[|g| - 1];
    if own == [] {
      assert descs + own == descs && Flatten(own) == [];
      assert g == g[..|g| - 1] + [last];
    } else {
      var init, desc := own[..|own| - 1], own[|own| - 1];
      GroupOwn(descs, init);
      var all := descs + own;
      assert all[..|all| - 1] == descs + init && all[|all| - 1] == desc;
      OwnFollows(all);
      FlattenSnoc(init, desc);
      assert init + [desc] == own;
      ReplaceLast(g[..|g| - 1], last.(own := Flatten(init)), last.(own := Flatten(own)));
    }
  }

  function EndpointDescs(eps: seq<Endpoint>): (r: seq<seq<byte>>)
    ensures |r| == |eps|
  {
    seq(|eps|, k requires 0 <= k < |eps| => EndpointBytes(eps[k]))
  }

  lemma {:induction false} WalkEndpoints(eps: seq<Endpoint>)
    ensures Walk(EndpointsBytes(eps)) == Some(EndpointDescs(eps))
  {
    if eps != [] {
      var init, last := eps[..|eps| - 1], eps[|eps| - 1];
      WalkEndpoints(init);
      WalkOne(EndpointBytes(last));
      WalkAppend(EndpointsBytes(init), EndpointBytes(last));
      assert EndpointDescs(init) + [EndpointBytes(last)] == EndpointDescs(eps);
    }
  }

  lemma TwoBytesAreEnough(n: nat)
    ensures Weigh(0, 0, High(n), Low(n)) == n <==> n < 0x1_0000
  {
    assert n == 256 * (n / 256) + n % 256 && n / 256 == 256 * (n / 256 / 256) + n / 256 % 256;
  }

  lemma EndpointReadBack(g: HostInterface, ep: Endpoint)
    ensures WithEndpoint(g, EndpointBytes(ep)) == g.(endpoints := g.endpoints + [ep])
  {
    TwoBytesAreEnough(ep.maxPacketSize);
  }

  lemma ReplaceLast<T>(before: seq<T>, x: T, y: T)
    ensures (before + [x])[|before| := y] == before + [y]
  {
  }

  lemma {:induction false} GroupEndpoints(descs: seq<seq<byte>>, eps: seq<Endpoint>)
    requires Group(descs) != [] && Group(descs)[|Group(descs)| - 1].endpoints == []
    ensures var g := Group(descs);
            Group(descs + EndpointDescs(eps)) == g[..|g| - 1] + [g[|g| - 1].(endpoints := eps)]
    decreases |eps|
  {
    var g := Group(descs);
    var last := g[|g| - 1];
    if eps == [] {
      assert descs + EndpointDescs(eps) == descs;
      assert g == g[..|g| - 1] + [last];
    } else {
      var init, ep := eps[..|eps| - 1], eps[|eps| - 1];
      GroupEndpoints(descs, init);
      var all := descs + EndpointDescs(eps);
      assert all[..|all| - 1] == descs + EndpointDescs(init) && all[|all| - 1] == EndpointBytes(ep);
      EndpointReadBack(last.(endpoints := init), ep);
      assert init + [ep] == eps;
      ReplaceLast(g[..|g| - 1], last.(endpoints := init), last.(endpoints := eps));
    }
  }

  /** `b` is a chain in which a host finds exactly these interfaces. */
  ghost predicate Finds(b: seq<byte>, found: seq<HostInterface>) {
    Walk(b).Some? && Group(Walk(b).value) == found
  }

  lemma WalkInterface(i: nat, intf: Interface)
    requires OwnChain(intf.classSpecific)
    ensures Walk(InterfaceBytes(i, intf))
         == Some([InterfaceHeader(i, intf)] + Walk(intf.classSpecific).value + EndpointDescs(intf.endpoints))
  {
    WalkOne(InterfaceHeader(i, intf));
    WalkAppend(InterfaceHeader(i, intf), intf.classSpecific);
    WalkEndpoints(intf.endpoints);
    WalkAppend(InterfaceHeader(i, intf) + intf.classSpecific, EndpointsBytes(intf.endpoints));
  }

  /** One interface's bytes add one interface with its endpoints, in order. */
  lemma FindsOneMore(before: seq<byte>, found: seq<HostInterface>, i: nat, intf: Interface)
    requires Finds(before, found) && OwnChain(intf.classSpecific)
    ensures Finds(before + InterfaceBytes(i, intf), found + [Expected(i, intf)])
  {
    var descs, own := Walk(before).value, Walk(intf.classSpecific).value;
    WalkInterface(i, intf);
    WalkAppend(before, InterfaceBytes(i, intf));
    assert descs + ([InterfaceHeader(i, intf)] + own + EndpointDescs(intf.endpoints))
        == descs + [InterfaceHeader(i, intf)] + own + EndpointDescs(intf.endpoints);
    WalkIsWhole(intf.classSpecific);
    GroupsInterface(descs, i, intf, own);
  }

  lemma GroupsInterface(descs: seq<seq<byte>>, i: nat, intf: Interface, own: seq<seq<byte>>)
    requires forall k | 0 <= k < |own| :: |own[k]| >= 2 && own[k][1] !in {INTERFACE, ENDPOINT}
    requires Flatten(own) == intf.classSpecific
    ensures Group(descs + [InterfaceHeader(i, intf)] + own + EndpointDescs(intf.endpoints))
         == Group(descs) + [Expected(i, intf)]
  {
    var header := InterfaceHeader(i, intf);
    assert (descs + [header])[..|descs|] == descs;
    assert Group(descs + [header]) == Group(descs) + [Begin(header)];
    GroupOwn(descs + [header], own);
    assert Group(descs + [header] + own) == Group(descs) + [Begin(header).(own := intf.classSpecific)];
    GroupEndpoints(descs + [header] + own, intf.endpoints);
  }

  lemma {:induction false} ReadsInterfaces(before: seq<byte>, intfs: seq<Interface>)
    requires Finds(before, [])
    requires forall k | 0 <= k < |intfs| :: OwnChain(intfs[k].classSpecific)
    ensures Finds(before + InterfacesBytes(intfs), AllExpected(intfs))
    decreases |intfs|
  {
    if intfs == [] {
      assert before + InterfacesBytes(intfs) == before;
    } else {
      var init, i := intfs[..|intfs| - 1], |intfs| - 1;
      ReadsInterfaces(before, init);
      FindsOneMore(before + InterfacesBytes(init), AllExpected(init), i, intfs[i]);
      Regroup(before, InterfacesBytes(init), InterfaceBytes(i, intfs[i]));
    }
  }

  lemma Regroup(a: seq<byte>, b: seq<byte>, c: seq<byte>)
    ensures a + b + c == a + (b + c)
  {
  }

  /**
   Walking the whole descriptor by bLength ends exactly at its end and meets the device's interfaces in order, each
   followed by its class's own descriptors and then by its endpoints, all fields intact.
   */
  lemma HostFindsTheDevice(d: Device)
    requires forall k | 0 <= k < |d.interfaces| :: OwnChain(d.interfaces[k].classSpecific)
    ensures Finds(Configuration(d), AllExpected(d.interfaces))
  {
    var header := ConfigurationHeader(d, 9 + |InterfacesBytes(d.interfaces)|);
    WalkOne(header);
    var descs := [header];
    assert descs[..0] == [] && Group(descs[..0]) == [];
    assert Group(descs) == [];
    ReadsInterfaces(header, d.interfaces);
  }

  /** The first nine bytes are the configuration's (USB 2.0, table 9-10): its value, its string, bus-powered, 100 mA in
      units of 2 mA. */
  lemma HostReadsTheConfiguration(d: Device)
    ensures var c := Configuration(d);
            |c| >= 9 && c[..2] == [9, 2] && c[5..9] == [d.configurationValue, d.configurationString, 0x80, 100 / 2]
  {
  }

  lemma OneByteIsEnough(n: nat)
    ensures n % 256 == n <==> n < 0x100
  {
  }

  /** The counts a host reads are the true ones exactly when they fit their fields. */
  lemma CountsExactlyWhenTheyFit(d: Device)
    ensures var c := Configuration(d);
            && |c| >= 9
            && (Weigh(0, 0, c[3], c[2]) == |c| <==> |c| < 0x1_0000)
            && (c[4] == |d.interfaces| <==> |d.interfaces| < 0x100)
    ensures forall k | 0 <= k < |d.interfaces| ::
              (AllExpected(d.interfaces)[k].numEndpoints == |AllExpected(d.interfaces)[k].endpoints|
               <==> |d.interfaces[k].endpoints| < 0x100)
  {
    var c := Configuration(d);
    assert c[2] == Low(|c|) && c[3] == High(|c|);
    TwoBytesAreEnough(|c|);
    OneByteIsEnough(|d.interfaces|);
    forall k | 0 <= k < |d.interfaces|
      ensures AllExpected(d.interfaces)[k].numEndpoints == |AllExpected(d.interfaces)[k].endpoints|
         <==> |d.interfaces[k].endpoints| < 0x100
    {
      EndpointCount(d.interfaces, k);
    }
  }

  lemma EndpointCount(intfs: seq<Interface>, k: nat)
    requires k < |intfs|
    ensures AllExpected(intfs)[k].numEndpoints == |AllExpected(intfs)[k].endpoints| <==> |intfs[k].endpoints| < 0x100
  {
    ExpectedAt(intfs, k);
    OneByteIsEnough(|intfs[k].endpoints|);
  }

  lemma {:induction false} ExpectedAt(intfs: seq<Interface>, k: nat)
    requires k < |intfs|
    ensures AllExpected(intfs)[k] == Expected(k, intfs[k])
  {
    if k < |intfs| - 1 { ExpectedAt(intfs[..|intfs| - 1], k); }
  }
}
