/**
 Which nodes each output profile can express. `CheckNode` and `Restrictions` call each
 other to look inside a ShadowTLS wrapper; the flat `LevelOk` below says, without any
 order of checks, what they decide.
 */
module Compatibility {
  import opened Wrappers

  datatype ProfileKind = Mihomo | SingBox | Xray | V2Ray | Shadowrocket | UriList | Json

  datatype ProtocolKind =
    | Vless | VMess | Trojan | Shadowsocks | Hysteria2 | TuicV5 | NaiveProxy | Socks5 | Http
    | HysteriaV1 | AnyTls | Snell | WireGuard | ShadowTls | Ssh | Unknown(name: string)

  datatype TransportKind = Tcp | Kcp | Ws | H2 | Quic | Grpc | HttpUpgrade | Xtls | Xhttp

  datatype SnellVersion = V1 | V2 | V3 | V4 | V5 | V6

  datatype ObfsMode = ObfsTls | ObfsHttp | ObfsShadowTls | ObfsRestls | ObfsJls

  datatype Obfs = Obfs(
    mode: ObfsMode, host: Option<string>, password: Option<string>, version: Option<nat>, alpn: seq<string>)

  datatype SnellOptions = SnellOptions(version: SnellVersion, obfs: Option<Obfs>, hasV6Mode: bool)

  /** A signed duration, seconds and nanoseconds having the same sign. */
  datatype Duration = Duration(wholeSeconds: int, subsecNanoseconds: int)

  /** The protocol configuration; the checks do not look inside a `Plain` one. */
  datatype Config =
    | Plain
    | SnellConfig(snell: SnellOptions)
    | WireGuardConfig(dns: seq<string>, keepalives: seq<Option<Duration>>)
    | ShadowTlsConfig(innerProtocol: ProtocolKind, innerConfig: Config)
    | Unsupported

  datatype Tls = Tls(
    enabled: bool, serverName: Option<string>, skipCertVerify: Option<bool>, alpn: seq<string>,
    clientFingerprint: Option<string>, certificatePins: seq<string>, hasReality: bool)

  /** A node's fields, as far as the checks read them. */
  datatype Node = Node(
    protocol: ProtocolKind, config: Config, transport: Option<TransportKind>, tls: Option<Tls>,
    udpSupported: Option<bool>, extras: set<string>)

  datatype Capability = Capability(profile: ProfileKind, protocols: set<ProtocolKind>, transports: set<TransportKind>)

  datatype Field =
    | RealityOnV2Ray | SnellUserkey | SnellUdpOnMihomo | SnellWithoutUri | SnellTlsBeyondCamouflage
    | SnellVersionSpecific | SnellObfsBeyondModeAndHost | WireGuardDns | WireGuardKeepalive | ShadowTlsInner

  datatype Reason =
    | UnsupportedProtocol(protocol: ProtocolKind)
    | UnsupportedConfig
    | UnsupportedTransport(transport: TransportKind)
    | UnsupportedField(field: Field)
    | UnsupportedProtocolVersion(version: SnellVersion)
    | UnsupportedObfsMode(mode: ObfsMode)

  /** `Panics` stands for the `unreachable!` branch. */
  datatype Verdict = Compatible | Incompatible(reason: Reason) | Panics

  // -------------------------------------------------------------- the matrix

  function CapabilityFor(profile: ProfileKind): Capability {
    Capability(profile, SupportedProtocols(profile), SupportedTransports(profile))
  }

  function SupportedProtocols(profile: ProfileKind): set<ProtocolKind> {
    match profile
    case Mihomo | SingBox =>
      {Vless, VMess, Trojan, Shadowsocks, Hysteria2, TuicV5, WireGuard, AnyTls, Snell, ShadowTls}
    case Xray => {Vless, VMess, Trojan, Shadowsocks, WireGuard}
    case V2Ray => {VMess, Vless, Trojan, Shadowsocks}
    case Shadowrocket => {Vless, VMess, Trojan, Shadowsocks, Hysteria2, TuicV5}
    case UriList =>
      {Vless, VMess, Trojan, Shadowsocks, Hysteria2, TuicV5, NaiveProxy, WireGuard, AnyTls, Snell}
    case Json =>
      {Vless, VMess, Trojan, Shadowsocks, Hysteria2, TuicV5, NaiveProxy, WireGuard, AnyTls, Snell, ShadowTls}
  }

  function SupportedTransports(profile: ProfileKind): set<TransportKind> {
    match profile
    case Mihomo => {Tcp, Ws, H2, Grpc, Quic, HttpUpgrade, Xhttp}
    case SingBox => {Tcp, Ws, H2, Grpc, Quic, HttpUpgrade}
    case Xray => {Tcp, Ws, H2, Grpc, Quic, HttpUpgrade, Xtls, Xhttp}
    case V2Ray | Shadowrocket => {Tcp, Ws, H2, Grpc, Quic}
    case UriList | Json => {Tcp, Ws, H2, Grpc, Quic, HttpUpgrade, Kcp, Xtls, Xhttp}
  }

  // -------------------------------------------------------------- the checks

  predicate TlsIsObfsAlias(snell: SnellOptions, tls: Option<Tls>) {
    match tls
    case None => true
    case Some(t) =>
      && snell.obfs.Some?
      && var o := snell.obfs.value;
         && o.mode == ObfsTls && t.enabled && t.serverName == o.host && t.skipCertVerify.None?
         && t.alpn == o.alpn && t.clientFingerprint.None? && t.certificatePins == [] && !t.hasReality
  }

  function RejectField(field: Field): Verdict {
    Incompatible(UnsupportedField(field))
  }

  function SnellRestrictions(node: Node, snell: SnellOptions, profile: ProfileKind): Verdict {
    if "snell_userkey" in node.extras && profile != SingBox then RejectField(SnellUserkey)
    else if profile == Mihomo && snell.version == V6 then Incompatible(UnsupportedProtocolVersion(V6))
    else if profile == Mihomo && (snell.version == V1 || snell.version == V2) && node.udpSupported == Some(true) then
      RejectField(SnellUdpOnMihomo)
    else if profile == UriList && SnellLacksUri(snell, node.tls) then RejectField(SnellWithoutUri)
    else if profile == SingBox && !TlsIsObfsAlias(snell, node.tls) then RejectField(SnellTlsBeyondCamouflage)
    else if profile == SingBox && (if snell.version == V6 then snell.obfs.Some? else snell.hasV6Mode) then
      RejectField(SnellVersionSpecific)
    else if profile == SingBox && snell.obfs.Some? && !BareObfs(snell.obfs.value) then
      RejectField(SnellObfsBeyondModeAndHost)
    else Compatible
  }

  predicate SnellLacksUri(snell: SnellOptions, tls: Option<Tls>) {
    || snell.hasV6Mode
    || !TlsIsObfsAlias(snell, tls)
    || (snell.obfs.Some?
        && (|| (snell.obfs.value.mode != ObfsHttp && snell.obfs.value.mode != ObfsTls)
            || snell.obfs.value.password.Some?
            || snell.obfs.value.version.Some?))
  }

  predicate BareObfs(o: Obfs) {
    o.password.None? && o.version.None? && o.alpn == []
  }

  function WireGuardRestrictions(dns: seq<string>, keepalives: seq<Option<Duration>>): Verdict {
    if dns != [] then RejectField(WireGuardDns)
    else if exists i :: 0 <= i < |keepalives| && keepalives[i].Some? && OutsideUint16(keepalives[i].value) then
      RejectField(WireGuardKeepalive)
    else Compatible
  }

  predicate OutsideUint16(d: Duration) {
    d.wholeSeconds < 0 || d.wholeSeconds > 65535 || d.subsecNanoseconds != 0
  }

  predicate WrapsSupported(profile: ProfileKind, inner: ProtocolKind) {
    match profile
    case Mihomo => inner in {Shadowsocks, Snell, Vless, Trojan, VMess, AnyTls}
    case SingBox => inner in {Shadowsocks, Trojan, VMess, Vless}
    case _ => false
  }

  /** The node inside a ShadowTLS wrapper; it inherits everything but the camouflage TLS. */
  function Inner(node: Node): Node
    requires node.config.ShadowTlsConfig?
  {
    node.(protocol := node.config.innerProtocol, config := node.config.innerConfig, tls := None)
  }

  function Restrictions(node: Node, profile: ProfileKind): Verdict
    decreases node.config, 0
  {
    if profile == Json then Compatible
    else if profile == V2Ray && node.tls.Some? && node.tls.value.hasReality then RejectField(RealityOnV2Ray)
    else
      match node.config
      case SnellConfig(snell) => SnellRestrictions(node, snell, profile)
      case WireGuardConfig(dns, keepalives) =>
        if profile == SingBox then WireGuardRestrictions(dns, keepalives) else Compatible
      case ShadowTlsConfig(innerProtocol, innerConfig) =>
        if !WrapsSupported(profile, innerProtocol) || innerConfig.Unsupported? then RejectField(ShadowTlsInner)
        else CheckNode(Inner(node), CapabilityFor(profile))
      case _ => Compatible
  }

  function CheckNode(node: Node, cap: Capability): Verdict
    decreases node.config, 1
  {
    if node.protocol !in cap.protocols then Incompatible(UnsupportedProtocol(node.protocol))
    else if node.config.Unsupported? then Incompatible(UnsupportedConfig)
    else if node.transport.Some? && node.transport.value !in cap.transports then
      Incompatible(UnsupportedTransport(node.transport.value))
    else
      var inner := Restrictions(node, cap.profile);
      if inner != Compatible then inner
      else if cap.profile == SingBox && node.config.SnellConfig? then SingBoxSnell(node.config.snell)
      else Compatible
  }

  function SingBoxSnell(snell: SnellOptions): Verdict {
    if snell.version != V4 && snell.version != V6 then Incompatible(UnsupportedProtocolVersion(snell.version))
    else if snell.version == V4 && snell.obfs.Some? && snell.obfs.value.mode !in {ObfsHttp, ObfsTls} then
      match snell.obfs.value.mode
      case ObfsShadowTls | ObfsRestls | ObfsJls => Incompatible(UnsupportedObfsMode(snell.obfs.value.mode))
      case ObfsHttp | ObfsTls => Panics
    else Compatible
  }

  predicate Accepts(profile: ProfileKind, node: Node) {
    CheckNode(node, CapabilityFor(profile)) == Compatible
  }

  // ------------------------------------------------- what the checks decide

  /** The node and everything ShadowTLS wraps inside it, outermost first. */
  ghost function Levels(node: Node): (r: seq<Node>)
    ensures |r| > 0 && r[0] == node
    decreases node.config
  {
    if node.config.ShadowTlsConfig? then [node] + Levels(Inner(node)) else [node]
  }

  /** Each inner level has its own protocol and configuration, no TLS, and the outermost node's other fields. */
  lemma {:induction false} LevelsShape(node: Node, i: nat)
    requires i < |Levels(node)|
    ensures Levels(node)[i].config.ShadowTlsConfig? <==> i + 1 < |Levels(node)|
    ensures i + 1 < |Levels(node)| ==>
      var wrapper := Levels(node)[i].config;
      Levels(node)[i + 1] == Node(wrapper.innerProtocol, wrapper.innerConfig, node.transport, None,
                                  node.udpSupported, node.extras)
    decreases i
  {
    if node.config.ShadowTlsConfig? {
      var inner := Levels(Inner(node));
      assert Levels(node) == [node] + inner;
      if i > 0 {
        LevelsShape(Inner(node), i - 1);
      }
    }
  }

  /** Which profiles have the protocol. */
  ghost predicate Speaks(profile: ProfileKind, protocol: ProtocolKind) {
    match protocol
    case Vless | VMess | Trojan | Shadowsocks => true
    case Hysteria2 | TuicV5 => profile !in {Xray, V2Ray}
    case WireGuard => profile !in {V2Ray, Shadowrocket}
    case AnyTls | Snell => profile in {Mihomo, SingBox, UriList, Json}
    case ShadowTls => profile in {Mihomo, SingBox, Json}
    case NaiveProxy => profile in {UriList, Json}
    case _ => false
  }

  /** Which profiles have the transport. */
  ghost predicate Carries(profile: ProfileKind, transport: TransportKind) {
    match transport
    case Tcp | Ws | H2 | Grpc | Quic => true
    case HttpUpgrade => profile !in {V2Ray, Shadowrocket}
    case Xhttp => profile in {Mihomo, Xray, UriList, Json}
    case Xtls => profile in {Xray, UriList, Json}
    case Kcp => profile in {UriList, Json}
  }

  /** Which profiles can put the protocol inside ShadowTLS. */
  ghost predicate Wraps(profile: ProfileKind, inner: ProtocolKind) {
    match inner
    case Shadowsocks | Vless | VMess | Trojan => profile in {Mihomo, SingBox}
    case Snell | AnyTls => profile == Mihomo
    case _ => false
  }

  lemma MatrixTransposed(profile: ProfileKind, protocol: ProtocolKind, transport: TransportKind)
    ensures protocol in SupportedProtocols(profile) <==> Speaks(profile, protocol)
    ensures transport in SupportedTransports(profile) <==> Carries(profile, transport)
    ensures WrapsSupported(profile, protocol) <==> Wraps(profile, protocol)
  {
    match profile
    case _ =>
  }

  /** A Snell node's TLS settings, if any, are those of its TLS obfuscation and nothing more. */
  ghost predicate OnlyCamouflage(s: SnellOptions, tls: Option<Tls>) {
    tls.Some? ==>
      s.obfs.Some? && s.obfs.value.mode == ObfsTls
      && tls.value == Tls(true, s.obfs.value.host, None, s.obfs.value.alpn, None, [], false)
  }

  ghost predicate HasUri(s: SnellOptions, tls: Option<Tls>) {
    && !s.hasV6Mode && OnlyCamouflage(s, tls)
    && (s.obfs.Some? ==> var o := s.obfs.value;
          (o.mode == ObfsHttp || o.mode == ObfsTls) && o.password == None && o.version == None)
  }

  ghost predicate SnellOk(profile: ProfileKind, node: Node, s: SnellOptions) {
    && ("snell_userkey" in node.extras ==> profile == SingBox)
    && (profile == Mihomo ==> s.version != V6 && (s.version in {V1, V2} ==> node.udpSupported != Some(true)))
    && (profile == UriList ==> HasUri(s, node.tls))
    && (profile == SingBox ==>
          && OnlyCamouflage(s, node.tls)
          && (s.version == V6 ==> s.obfs.None?)
          && (s.version == V4 ==> !s.hasV6Mode && (s.obfs.Some? ==> s.obfs.value.mode in {ObfsHttp, ObfsTls}))
          && (s.obfs.Some? ==> s.obfs.value == Obfs(s.obfs.value.mode, s.obfs.value.host, None, None, []))
          && s.version in {V4, V6})
  }

  ghost predicate KeepaliveOk(k: Option<Duration>) {
    k.Some? ==> 0 <= k.value.wholeSeconds <= 65535 && k.value.subsecNanoseconds == 0
  }

  /** What a profile other than `Json` asks of one level, whatever wraps it. */
  ghost predicate LevelOk(profile: ProfileKind, node: Node) {
    && Speaks(profile, node.protocol)
    && node.config != Unsupported
    && (node.transport.Some? ==> Carries(profile, node.transport.value))
    && (profile == V2Ray && node.tls.Some? ==> !node.tls.value.hasReality)
    && (node.config.SnellConfig? ==> SnellOk(profile, node, node.config.snell))
    && (node.config.WireGuardConfig? && profile == SingBox ==>
          node.config.dns == [] && forall k :: k in node.config.keepalives ==> KeepaliveOk(k))
    && (node.config.ShadowTlsConfig? ==>
          Wraps(profile, node.config.innerProtocol) && node.config.innerConfig != Unsupported)
  }

  ghost predicate AllLevelsOk(profile: ProfileKind, node: Node) {
    forall i :: 0 <= i < |Levels(node)| ==> LevelOk(profile, Levels(node)[i])
  }

  lemma SnellExactly(profile: ProfileKind, node: Node, s: SnellOptions)
    ensures SnellOk(profile, node, s) <==>
      && SnellRestrictions(node, s, profile) == Compatible
      && (profile == SingBox ==> SingBoxSnell(s) == Compatible)
  {
  }

  lemma WireGuardExactly(dns: seq<string>, keepalives: seq<Option<Duration>>)
    ensures WireGuardRestrictions(dns, keepalives) == Compatible <==>
      dns == [] && forall k :: k in keepalives ==> KeepaliveOk(k)
  {
    if forall k :: k in keepalives ==> KeepaliveOk(k) {
      forall i | 0 <= i < |keepalives| && keepalives[i].Some? ensures !OutsideUint16(keepalives[i].value) {
        assert KeepaliveOk(keepalives[i]);
      }
    }
  }

  /** The order of the checks does not matter. */
  lemma AcceptsUnfolded(profile: ProfileKind, node: Node)
    ensures Accepts(profile, node) <==>
      && Speaks(profile, node.protocol)
      && !node.config.Unsupported?
      && (node.transport.Some? ==> Carries(profile, node.transport.value))
      && Restrictions(node, profile) == Compatible
      && (profile == SingBox && node.config.SnellConfig? ==> SingBoxSnell(node.config.snell) == Compatible)
  {
    var cap := CapabilityFor(profile);
    MatrixTransposed(profile, node.protocol, if node.transport.Some? then node.transport.value else Tcp);
    assert Restrictions(node, cap.profile) == Restrictions(node, profile);
    assert Accepts(profile, node) <==> CheckNode(node, cap) == Compatible;
  }

  lemma OneLevel(profile: ProfileKind, node: Node)
    requires profile != Json && !node.config.ShadowTlsConfig?
    ensures Accepts(profile, node) <==> LevelOk(profile, node)
  {
    AcceptsUnfolded(profile, node);
    match node.config
    case SnellConfig(s) => SnellExactly(profile, node, s);
    case WireGuardConfig(dns, keepalives) => WireGuardExactly(dns, keepalives);
    case _ =>
  }

  lemma Unwrap(profile: ProfileKind, node: Node)
    requires node.config.ShadowTlsConfig?
    ensures AllLevelsOk(profile, node) <==> LevelOk(profile, node) && AllLevelsOk(profile, Inner(node))
  {
    var inner := Levels(Inner(node));
    assert Levels(node) == [node] + inner;
    if AllLevelsOk(profile, node) {
      forall i | 0 <= i < |inner| ensures LevelOk(profile, inner[i]) {
        assert inner[i] == Levels(node)[i + 1];
      }
    }
  }

  /** Acceptance is exactly the flat condition at every level of ShadowTLS nesting. */
  lemma {:induction false} AcceptedExactly(profile: ProfileKind, node: Node)
    requires profile != Json
    ensures Accepts(profile, node) <==> AllLevelsOk(profile, node)
    decreases node.config
  {
    if node.config.ShadowTlsConfig? {
      AcceptedExactly(profile, Inner(node));
      AcceptsUnfolded(profile, node);
      MatrixTransposed(profile, node.config.innerProtocol, Tcp);
      Unwrap(profile, node);
    } else {
      OneLevel(profile, node);
      assert Levels(node) == [node];
    }
  }

  /** `Json` asks for a typed node and nothing else, at the outermost level only. */
  lemma JsonExactly(node: Node)
    ensures Accepts(Json, node) <==>
      && !node.config.Unsupported?
      && !node.protocol.Socks5? && !node.protocol.Http? && !node.protocol.HysteriaV1?
      && !node.protocol.Ssh? && !node.protocol.Unknown?
  {
    AcceptsUnfolded(Json, node);
  }

  /** The `unreachable!` branch is: for no node, capability or depth does the check panic. */
  lemma {:induction false} NeverPanics(node: Node, cap: Capability)
    ensures CheckNode(node, cap) != Panics && Restrictions(node, cap.profile) != Panics
    decreases node.config
  {
    if node.config.ShadowTlsConfig? {
      NeverPanics(Inner(node), CapabilityFor(cap.profile));
    }
  }

  /** An accepted ShadowTLS node has an accepted inner node, and no level is untyped. */
  lemma AcceptedInside(profile: ProfileKind, node: Node, i: nat)
    requires profile != Json && Accepts(profile, node) && i < |Levels(node)|
    ensures !Levels(node)[i].config.Unsupported?
    ensures Accepts(profile, Levels(node)[i])
    ensures i > 0 ==> profile in {Mihomo, SingBox} && Wraps(profile, Levels(node)[i].protocol)
    decreases i
  {
    AcceptedExactly(profile, node);
    if i > 0 {
      Unwrap(profile, node);
      AcceptedExactly(profile, Inner(node));
      assert Levels(node)[i] == Levels(Inner(node))[i - 1];
      AcceptedInside(profile, Inner(node), i - 1);
    }
  }

  /** The outermost level that fails decides the verdict, with the reason it would get on its own. */
  lemma {:induction false} OutermostFailureDecides(profile: ProfileKind, node: Node, k: nat)
    requires profile != Json && k < |Levels(node)|
    requires forall i :: 0 <= i < k ==> LevelOk(profile, Levels(node)[i])
    ensures CheckNode(node, CapabilityFor(profile)) == CheckNode(Levels(node)[k], CapabilityFor(profile))
    decreases k
  {
    if k > 0 {
      var inner := Levels(Inner(node));
      assert Levels(node) == [node] + inner;
      assert LevelOk(profile, Levels(node)[0]);
      forall i | 0 <= i < k - 1 ensures LevelOk(profile, inner[i]) {
        assert inner[i] == Levels(node)[i + 1];
      }
      OutermostFailureDecides(profile, Inner(node), k - 1);
      WrapperPasses(profile, node);
    }
  }

  lemma WrapperPasses(profile: ProfileKind, node: Node)
    requires profile != Json && LevelOk(profile, node) && node.config.ShadowTlsConfig?
    ensures CheckNode(node, CapabilityFor(profile)) == CheckNode(Inner(node), CapabilityFor(profile))
  {
    var cap := CapabilityFor(profile);
    MatrixTransposed(profile, node.protocol, if node.transport.Some? then node.transport.value else Tcp);
    MatrixTransposed(profile, node.config.innerProtocol, Tcp);
    assert Restrictions(node, cap.profile) == CheckNode(Inner(node), cap);
  }

  /** The reason is true of the level; protocol, configuration and transport come first, in this order. */
  ghost predicate Blames(profile: ProfileKind, node: Node, reason: Reason) {
    && (!Speaks(profile, node.protocol) ==> reason.UnsupportedProtocol?)
    && (Speaks(profile, node.protocol) && node.config == Unsupported ==> reason.UnsupportedConfig?)
    && (Speaks(profile, node.protocol) && node.config != Unsupported ==>
          node.transport.Some? && !Carries(profile, node.transport.value) ==> reason.UnsupportedTransport?)
    && match reason
       case UnsupportedProtocol(p) => p == node.protocol && !Speaks(profile, p)
       case UnsupportedConfig => node.config == Unsupported
       case UnsupportedTransport(t) => node.transport == Some(t) && !Carries(profile, t)
       case UnsupportedField(f) => BlamesField(profile, node, f)
       case UnsupportedProtocolVersion(v) =>
         node.config.SnellConfig? && node.config.snell.version == v
         && (if profile == Mihomo then v == V6 else profile == SingBox && v != V4 && v != V6)
       case UnsupportedObfsMode(m) =>
         profile == SingBox && node.config.SnellConfig? && node.config.snell.version == V4
         && node.config.snell.obfs.Some? && node.config.snell.obfs.value.mode == m && m != ObfsHttp && m != ObfsTls
  }

  ghost predicate BlamesField(profile: ProfileKind, node: Node, f: Field) {
    if f == RealityOnV2Ray then profile == V2Ray && node.tls.Some? && node.tls.value.hasReality
    else
      match node.config
      case SnellConfig(s) => BlamesSnell(profile, node, s, f)
      case WireGuardConfig(dns, keepalives) =>
        profile == SingBox
        && (if f == WireGuardDns then dns != []
            else f == WireGuardKeepalive && exists k :: k in keepalives && !KeepaliveOk(k))
      case ShadowTlsConfig(protocol, config) =>
        f == ShadowTlsInner && (!Wraps(profile, protocol) || config == Unsupported)
      case _ => false
  }

  ghost predicate BlamesSnell(profile: ProfileKind, node: Node, s: SnellOptions, f: Field) {
    match f
    case SnellUserkey => profile != SingBox && "snell_userkey" in node.extras
    case SnellUdpOnMihomo => profile == Mihomo && s.version in {V1, V2} && node.udpSupported == Some(true)
    case SnellWithoutUri => profile == UriList && !HasUri(s, node.tls)
    case SnellTlsBeyondCamouflage => profile == SingBox && !OnlyCamouflage(s, node.tls)
    case SnellVersionSpecific => profile == SingBox && (if s.version == V6 then s.obfs.Some? else s.hasV6Mode)
    case SnellObfsBeyondModeAndHost =>
      profile == SingBox && s.obfs.Some? && s.obfs.value != Obfs(s.obfs.value.mode, s.obfs.value.host, None, None, [])
    case _ => false
  }

  lemma OwnReason(profile: ProfileKind, node: Node)
    requires profile != Json && !LevelOk(profile, node)
    ensures var v := CheckNode(node, CapabilityFor(profile)); v.Incompatible? && Blames(profile, node, v.reason)
  {
    var cap := CapabilityFor(profile);
    MatrixTransposed(profile, node.protocol, if node.transport.Some? then node.transport.value else Tcp);
    assert Restrictions(node, cap.profile) == Restrictions(node, profile);
    match node.config
    case WireGuardConfig(dns, keepalives) => WireGuardExactly(dns, keepalives);
    case ShadowTlsConfig(protocol, _) => MatrixTransposed(profile, protocol, Tcp);
    case _ =>
  }

  /** A rejection names something that is true of the outermost level that fails. */
  lemma {:induction false} ReasonIsTrue(profile: ProfileKind, node: Node) returns (k: nat)
    requires profile != Json && !Accepts(profile, node)
    ensures k < |Levels(node)| && forall i :: 0 <= i < k ==> LevelOk(profile, Levels(node)[i])
    ensures !LevelOk(profile, Levels(node)[k])
    ensures var v := CheckNode(node, CapabilityFor(profile));
      v.Incompatible? && Blames(profile, Levels(node)[k], v.reason)
    decreases node.config
  {
    if !LevelOk(profile, node) {
      k := 0;
      OwnReason(profile, node);
    } else {
      if !node.config.ShadowTlsConfig? {
        OneLevel(profile, node);
      }
      WrapperPasses(profile, node);
      var inner := Levels(Inner(node));
      assert Levels(node) == [node] + inner;
      k := ReasonIsTrue(profile, Inner(node));
      k := k + 1;
    }
  }

  /** Xray takes everything V2Ray takes, and this is exactly what more it takes. */
  lemma V2RayWithinXray(node: Node)
    ensures Accepts(V2Ray, node) <==>
      && Accepts(Xray, node)
      && node.protocol != WireGuard
      && (node.transport.Some? ==> node.transport.value !in {HttpUpgrade, Xtls, Xhttp})
      && (node.tls.Some? ==> !node.tls.value.hasReality)
  {
    AcceptsUnfolded(V2Ray, node);
    AcceptsUnfolded(Xray, node);
  }

  /** No profile takes a node the full-fidelity one refuses. */
  lemma AnyWithinJson(profile: ProfileKind, node: Node)
    ensures Accepts(profile, node) ==> Accepts(Json, node)
  {
    JsonExactly(node);
  }

  // ------------------------------------- nesting when protocol and config disagree

  /** ShadowTLS inside a configuration whose declared protocol is not ShadowTLS. */
  ghost function Nested(depth: nat): Config {
    if depth == 0 then Plain else ShadowTlsConfig(Shadowsocks, Nested(depth - 1))
  }

  ghost function NestedNode(protocol: ProtocolKind, depth: nat): Node {
    Node(protocol, Nested(depth), None, None, None, {})
  }

  /** Excluding ShadowTLS as an inner protocol does not bound the recursion: a mismatched
      configuration is accepted at any depth, with one level per step. */
  lemma {:induction false} NestingIsUnbounded(profile: ProfileKind, protocol: ProtocolKind, depth: nat)
    requires profile in {Mihomo, SingBox} && protocol in {ShadowTls, Shadowsocks}
    ensures Accepts(profile, NestedNode(protocol, depth)) && |Levels(NestedNode(protocol, depth))| == depth + 1
    decreases depth
  {
    if depth > 0 {
      NestingIsUnbounded(profile, Shadowsocks, depth - 1);
      assert Inner(NestedNode(protocol, depth)) == NestedNode(Shadowsocks, depth - 1);
    }
  }
}
