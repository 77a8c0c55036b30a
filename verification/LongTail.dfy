/** The long-tail classifier (configs/long_tail_namespace.go): what a bare attribute name and wire type
    say about capability, semantics, directions and decoding. The intake builds its records with it, and
    its runtime pass is one of the registry's profile passes. */
module LongTail {
  import opened Text
  import opened Sequences
  import opened SemanticSets
  import opened RegistryModel

  // ----- semantic names (configs/vendor_semantics.go)

  const ROLE := "access.role"
  const BANDWIDTH_PROFILE := "access.bandwidth_profile"
  const VLAN := "access.vlan"
  const QUARANTINE := "access.quarantine"
  const POLICY_TAG := "access.policy_tag"
  const SESSION_TIMEOUT := "session.timeout_seconds"
  const IDLE_TIMEOUT := "session.idle_timeout_seconds"
  const DATA_QUOTA := "session.max_total_octets"
  const PORTAL_PROFILE := "guest.portal_profile"
  const DEVICE_GROUP := "device.group"
  const TENANT := "governance.tenant"
  const DOWNLOAD_BANDWIDTH := "qos.download_bandwidth"
  const UPLOAD_BANDWIDTH := "qos.upload_bandwidth"
  const ACL := "enforcement.acl"
  const DYNAMIC_ACL := "enforcement.dynamic_acl"
  const ACCOUNTING_IDENTITY := "accounting.identity"
  const ACCOUNTING_COUNTERS := "accounting.counters"
  const ROUTE := "routing.framed_route"
  const VRF := "routing.vrf"
  const ADDRESS_POOL := "address.pool"
  const IPV4_ADDRESS := "address.ipv4"
  const IPV6_ADDRESS := "address.ipv6"
  const DELEGATED_IPV6_PREFIX := "address.delegated_ipv6_prefix"
  const TRANSLATION_POLICY := "translation.policy"
  const TRANSLATION_PUBLIC_IPV4 := "translation.public_ipv4"
  const TRANSLATION_PORT_BLOCK := "translation.port_block"
  const NAT64_PREFIX := "translation.nat64_prefix"
  const COA_REAUTH := "coa.reauth"
  const COA_DISCONNECT := "coa.disconnect"
  const CONTROLLER_POLICY_SYNC := "controller.policy_sync"
  const CONTROLLER_HEALTH := "controller.sync_health"
  const DEVICE_POSTURE := "posture.device_state"
  const GUEST_LIFECYCLE := "guest.lifecycle"
  const CERTIFICATE_ONBOARDING := "onboarding.certificate"

  // ----- wire types

  /** The text before the first `[`. */
  function BeforeBracket(s: string): string {
    if s == "" || s[0] == '[' then "" else [s[0]] + BeforeBracket(s[1..])
  }

  function BaseType(value: string): string {
    BeforeBracket(Lower(Trim(value)))
  }

  const WIRE_TYPES := {"abinary", "bool", "byte", "combo-ip", "date", "ether", "ethernet", "extended", "float32",
    "float64",
                       "group", "ifid", "int8", "int16", "int32", "int64", "integer", "integer64", "ipaddr", "ipv4addr",
                       "ipv4prefix", "ipv6addr", "ipv6prefix", "octet", "octets", "short", "signed", "string", "struct",
                       "text", "time_delta", "tlv", "uint8", "uint16", "uint32", "uint64", "union", "vendor", "vsa"}

  /** `ValidVendorDictionaryAttributeType` (configs/vendor_dictionary.go). */
  predicate ValidType(value: string) {
    var base := Lower(Trim(value));
    && base != ""
    && ('[' in base ==> base[|base| - 1] == ']')
    && BeforeBracket(base) in WIRE_TYPES
  }

  const BINARY_TYPES := {"abinary", "combo-ip", "extended", "float32", "float64", "group", "ifid", "ipv4prefix",
    "ipv6prefix",
                         "octet", "octets", "struct", "tlv", "union", "vendor", "vsa"}

  const INTEGER_TYPES := {"bool", "byte", "date", "int8", "int16", "int32", "int64", "integer", "integer64", "short",
                          "signed", "time_delta", "uint8", "uint16", "uint32", "uint64"}

  predicate IsBinary(wireType: string) {
    BaseType(wireType) in BINARY_TYPES
  }

  predicate IsInteger(wireType: string) {
    BaseType(wireType) in INTEGER_TYPES
  }

  // ----- capability and semantics

  datatype Rule = Rule(tokens: seq<string>, adds: seq<string>)

  function CapabilityByName(name: string): string {
    if ContainsAny(name, ["quota", "octets", "bytes", "packets", "counter", "acct", "account", "session-id", "usage",
                          "balance", "threshold", "gigawords"]) then "long_tail_accounting_and_quota"
    else if ContainsAny(name, ["portal", "redirect", "url", "uam", "hotspot", "guest", "wispr", "walled"])
      then "long_tail_portal_hotspot_guest"
    else if ContainsAny(name, ["ipv6", "ip6", "delegated", "prefix", "pool", "framed", "dns", "gateway", "ip-addr",
                               "address"]) then "long_tail_ip_addressing"
    else if ContainsAny(name, ["route", "vrf", "vrouter", "routing-instance", "tunnel", "l2tp", "mpls", "bgp"])
      then "long_tail_route_vrf_tunnel"
    else if ContainsAny(name, ["nat", "cgn", "public", "private", "port-block", "nat64"])
      then "long_tail_nat_translation"
    else if ContainsAny(name, ["tenant", "realm", "domain", "location", "site", "zone", "org", "organisation",
                               "organization"]) then "long_tail_tenant_location"
    else if ContainsAny(name, ["posture", "device", "fingerprint", "mac", "host", "hostname", "ap-", "serial", "model",
                               "oui", "interface", "circuit", "remote-id"]) then "long_tail_device_posture_inventory"
    else if ContainsAny(name, ["password", "passwd", "secret", "key", "psk", "token", "nonce", "challenge", "response",
                               "certificate", "cert", "otp", "pin", "triplet", "quint"])
                                 then "long_tail_certificate_credential"
    else if ContainsAny(name, ["controller", "sync", "health", "management", "admin", "privilege", "command", "shell",
                               "cli"]) then "long_tail_controller_management"
    else if ContainsAny(name, ["sip", "voice", "voip", "media", "apn", "imsi", "msisdn", "pdp", "charging", "roam"])
      then "long_tail_voice_mobile_context"
    else ""
  }

  predicate IsUnderscore(c: char) {
    c == '_'
  }

  function CapabilityChars(s: string): string {
    if s == "" then ""
    else
      (if s[0] in "/\\ -.:" then "_" else if s[0] in "()," then "" else [s[0]]) + CapabilityChars(s[1..])
  }

  function CollapseUnderscores(s: string): string {
    if |s| < 2 then s
    else if s[0] == '_' && s[1] == '_' then CollapseUnderscores(s[1..])
    else [s[0]] + CollapseUnderscores(s[1..])
  }

  /** `normalizeLongTailCapabilityKey`. */
  function CapabilityKey(value: string): string {
    var key := Strip(IsUnderscore, CollapseUnderscores(CapabilityChars(Lower(Trim(value)))));
    if key == "" then "vendor_context" else key
  }

  /** `longTailNamespaceCapability`; a family that matches nothing is kept under its own name. */
  function Capability(e: Entry): string {
    var name, family := Lower(Trim(e.attribute)), Lower(Trim(e.family));
    if ContainsAny(name, ["coa", "disconnect", "reauth", "deauth", "bounce", "block", "unblock"])
      || Contains(family, "dynamic") then "long_tail_dynamic_authorization"
    else if ContainsAny(name, ["acl", "filter", "firewall", "rule", "avpair", "av-pair", "policy-rule"])
      || Contains(family, "acl") || Contains(family, "firewall") then "long_tail_acl_firewall_policy"
    else if ContainsAny(name, ["vlan", "ssid", "wlan", "bridge", "segment", "qinq"]) || Contains(family, "vlan")
      || Contains(family, "wi-fi") then "long_tail_vlan_wireless_policy"
    else if ContainsAny(name, ["rate", "bandwidth", "bw-", "qos", "dscp", "priority", "burst", "queue", "speed",
                               "class"]) then "long_tail_bandwidth_qos"
    else if CapabilityByName(name) != "" then CapabilityByName(name)
    else if IsBinary(e.wireType) then "long_tail_typed_binary_evidence"
    else if family != "" then "long_tail_" + CapabilityKey(e.family)
    else "long_tail_vendor_context"
  }

  const SEMANTIC_RULES: seq<Rule> := [
    Rule(["acl", "filter", "firewall", "rule", "avpair", "av-pair"], [DYNAMIC_ACL, ACL]),
    Rule(["vlan", "ssid", "wlan", "bridge", "segment", "qinq"], [VLAN]),
    Rule(["role", "group", "priv", "profile", "command", "shell", "cli", "access-level", "class"], [ROLE]),
    Rule(["download", "downstream", "downlink", "egress", "recv", "receive", "rx", "-down", "_down", "-dl"],
         [DOWNLOAD_BANDWIDTH]),
    Rule(["upload", "upstream", "uplink", "ingress", "xmit", "transmit", "tx", "-up", "_up", "-ul"],
         [UPLOAD_BANDWIDTH]),
    Rule(["rate", "bandwidth", "bw-", "qos", "dscp", "priority", "burst", "queue", "speed"], [BANDWIDTH_PROFILE]),
    Rule(["quota", "max-total", "total-limit", "octets", "bytes", "packets", "usage", "balance", "gigawords"],
         [DATA_QUOTA, ACCOUNTING_COUNTERS]),
    Rule(["portal", "redirect", "url", "uam", "hotspot", "guest", "wispr", "walled"],
         [PORTAL_PROFILE, GUEST_LIFECYCLE]),
    Rule(["tenant", "realm", "domain", "location", "site", "zone", "org", "organisation", "organization"], [TENANT]),
    Rule(["delegated", "ipv6-prefix", "ip6-prefix"], [DELEGATED_IPV6_PREFIX]),
    Rule(["ipv6", "ip6"], [IPV6_ADDRESS]),
    Rule(["ipaddr", "ip-addr", "ip-address", "framed-ip", "dns", "gateway", "address"], [IPV4_ADDRESS]),
    Rule(["pool"], [ADDRESS_POOL]),
    Rule(["route"], [ROUTE]),
    Rule(["vrf", "vrouter", "routing-instance"], [VRF]),
    Rule(["nat64"], [NAT64_PREFIX]),
    Rule(["port-block", "port-range"], [TRANSLATION_PORT_BLOCK]),
    Rule(["nat", "cgn", "public", "private"], [TRANSLATION_POLICY, TRANSLATION_PUBLIC_IPV4]),
    Rule(["coa", "reauth", "bounce"], [COA_REAUTH]),
    Rule(["disconnect", "deauth"], [COA_DISCONNECT]),
    Rule(["quarantine", "intercept", "block", "deny"], [QUARANTINE]),
    Rule(["posture", "fingerprint", "device", "mac", "host", "hostname", "ap-", "serial", "model", "oui", "interface",
          "circuit", "remote-id"], [DEVICE_POSTURE, DEVICE_GROUP]),
    Rule(["controller", "sync", "health"], [CONTROLLER_HEALTH]),
    Rule(["password", "passwd", "secret", "key", "psk", "token", "nonce", "challenge", "response", "certificate",
          "cert", "otp", "pin", "triplet", "quint"], [CERTIFICATE_ONBOARDING]),
    Rule(["acct", "account", "session-id", "nas-", "subscriber", "user-name", "username", "imsi", "msisdn", "apn",
          "charging"], [ACCOUNTING_IDENTITY])
  ]

  function CapabilitySemantic(capability: string): string {
    match capability
    case "long_tail_acl_firewall_policy" => DYNAMIC_ACL
    case "long_tail_vlan_wireless_policy" => VLAN
    case "long_tail_bandwidth_qos" => BANDWIDTH_PROFILE
    case "long_tail_accounting_and_quota" => ACCOUNTING_COUNTERS
    case "long_tail_portal_hotspot_guest" => PORTAL_PROFILE
    case "long_tail_ip_addressing" => ADDRESS_POOL
    case "long_tail_route_vrf_tunnel" => VRF
    case "long_tail_nat_translation" => TRANSLATION_POLICY
    case "long_tail_device_posture_inventory" => DEVICE_POSTURE
    case "long_tail_controller_management" => ROLE
    case "long_tail_certificate_credential" => CERTIFICATE_ONBOARDING
    case _ => POLICY_TAG
  }

  /** What the first matching rule adds, or the default for the capability. */
  function Additions(rules: seq<Rule>, name: string, capability: string): seq<string> {
    if rules == [] then [CapabilitySemantic(capability)]
    else if ContainsAny(name, rules[0].tokens) then (if rules[0].adds == [] then [CapabilitySemantic(capability)]
                                                     else rules[0].adds)
    else Additions(rules[1..], name, capability)
  }

  function MergeAll(semantic: string, adds: seq<string>): string
    decreases |adds|
  {
    if adds == [] then semantic else MergeAll(Merge(semantic, adds[0]), adds[1..])
  }

  function Classify(rules: seq<Rule>, semantic: string, name: string, capability: string): string {
    var merged := MergeAll(semantic, Additions(rules, name, capability));
    if merged == "" then POLICY_TAG else merged
  }

  /** `longTailNamespaceSemantic`. */
  function Semantic(e: Entry): string {
    Classify(SEMANTIC_RULES, Trim(e.semantic), Lower(Trim(e.attribute)), Capability(e))
  }

  lemma {:induction false} MergedHasFirst(a: string, b: string)
    ensures Merge(a, b) != "" ==> First(Merge(a, b)) != ""
  {
    MergeTokens(a, b);
    FirstToken(Merge(a, b));
  }

  lemma {:induction false} MergeAllHasFirst(semantic: string, adds: seq<string>)
    requires adds != []
    ensures MergeAll(semantic, adds) != "" ==> First(MergeAll(semantic, adds)) != ""
    decreases |adds|
  {
    MergedHasFirst(semantic, adds[0]);
    if |adds| > 1 {
      MergeAllHasFirst(Merge(semantic, adds[0]), adds[1..]);
    }
  }

  lemma {:induction false} AdditionsAreSome(rules: seq<Rule>, name: string, capability: string)
    ensures Additions(rules, name, capability) != []
  {
    if rules != [] {
      AdditionsAreSome(rules[1..], name, capability);
    }
  }

  /** Ends in a visible character, so is not blank. */
  predicate Visible(s: string) {
    s != "" && !IsSpace(s[|s| - 1])
  }

  lemma {:induction false} VisibleIsText(s: string)
    requires Visible(s)
    ensures !Blank(s)
  {
    BlankIsAllSpace(s);
  }

  lemma {:induction false} PolicyTagIsToken()
    ensures First(POLICY_TAG) == POLICY_TAG != ""
  {
    assert ',' !in POLICY_TAG;
    SingleToken(POLICY_TAG);
  }

  /** Whatever the rule table, every entry gets a primary semantic. */
  lemma {:induction false} ClassifyHasPrimary(rules: seq<Rule>, semantic: string, name: string, capability: string)
    ensures First(Classify(rules, semantic, name, capability)) != ""
  {
    AdditionsAreSome(rules, name, capability);
    MergeAllHasFirst(semantic, Additions(rules, name, capability));
    PolicyTagIsToken();
  }

  lemma {:induction false} SemanticHasPrimary(e: Entry)
    ensures First(Semantic(e)) != ""
  {
    ClassifyHasPrimary(SEMANTIC_RULES, Trim(e.semantic), Lower(Trim(e.attribute)), Capability(e));
  }

  // ----- sensitive names

  predicate Sensitive(attribute: string) {
    ContainsAny(Lower(Trim(attribute)), [
      "password", "passwd", "secret", "shared-secret", "key", "psk", "dpsk", "mpkey", "token", "nonce", "challenge",
      "response", "signature", "cookie", "otp", "pin", "triplet", "quint", "private", "credential"])
  }

  // ----- directions

  function FoldDirection(value: string): string {
    Lower(Trim(value))
  }

  predicate IsDirection(value: string) {
    Lower(Trim(value)) != ""
  }

  /** The value of `mergeLongTailNamespaceDirections`. */
  function MergeDirections(existing: seq<string>, inferred: seq<string>): seq<string> {
    StableSort(NotAfterText, Mapped(FoldDirection,
                                    Distinct(FoldDirection, {}, Filter(IsDirection, existing + inferred))))
  }

  /** `mergeLongTailNamespaceDirections` as it runs. */
  method MergeLongTailDirections(existing: seq<string>, inferred: seq<string>) returns (out: seq<string>)
    ensures out == MergeDirections(existing, inferred)
  {
    out := CollectFirsts(IsDirection, FoldDirection, FoldDirection, existing + inferred);
    out := StableSort(NotAfterText, out);
  }

  lemma {:induction false} TextOrder()
    ensures TotalPreorder(NotAfterText)
  {
    forall x, y ensures NotAfterText(x, y) || NotAfterText(y, x) {
      if Less(x, y) {
        LessAsymmetric(x, y);
      }
    }
    forall x, y, z | NotAfterText(x, y) && NotAfterText(y, z) ensures NotAfterText(x, z) {
      NotLessTransitive(x, y, z);
    }
  }

  /** The folded elements of a list, each once. */
  lemma {:induction false} FirstsFolded(values: seq<string>, d: string)
    ensures var folded := Mapped(FoldDirection, Distinct(FoldDirection, {}, Filter(IsDirection, values)));
            && UniqueKeys(Itself, folded)
            && (d in folded <==> exists v <- values :: IsDirection(v) && FoldDirection(v) == d)
  {
    FirstKeys(IsDirection, FoldDirection, values, d);
  }

  /** Merged directions are exactly the folded non-blank ones of both lists, each once, in order. */
  lemma {:induction false} MergedDirections(existing: seq<string>, inferred: seq<string>, d: string)
    ensures d in MergeDirections(existing, inferred) <==>
            exists v <- existing + inferred :: IsDirection(v) && FoldDirection(v) == d
    ensures UniqueKeys(Itself, MergeDirections(existing, inferred))
            && SortedBy(NotAfterText, MergeDirections(existing, inferred))
  {
    var folded := Mapped(FoldDirection, Distinct(FoldDirection, {}, Filter(IsDirection, existing + inferred)));
    FirstsFolded(existing + inferred, d);
    TextOrder();
    StableSortFacts(NotAfterText, folded);
    UniqueKeysPermute(Itself, folded, MergeDirections(existing, inferred));
    assert d in MergeDirections(existing, inferred) <==> d in multiset(MergeDirections(existing, inferred));
    assert d in folded <==> d in multiset(folded);
  }

  function InferredDirections(e: Entry, semantic: string): (r: seq<string>)
    ensures "inbound" in r
  {
    var name := Lower(Trim(e.attribute));
    if SemanticContains(semantic, ACCOUNTING_COUNTERS) || SemanticContains(semantic, ACCOUNTING_IDENTITY)
       || ContainsAny(name, ["acct", "account", "counter", "octets", "packets", "session"])
         then ["accounting", "inbound"]
    else if SemanticContains(semantic, COA_REAUTH) || SemanticContains(semantic, COA_DISCONNECT)
       || ContainsAny(name, ["coa", "disconnect", "reauth", "deauth"]) then ["coa", "inbound", "outbound_reply"]
    else if SemanticContains(semantic, CONTROLLER_HEALTH) || SemanticContains(semantic, CONTROLLER_POLICY_SYNC)
       || ContainsAny(name, ["controller", "sync", "health", "management"]) then ["controller_api", "inbound"]
    else if Sensitive(e.attribute) then ["inbound"]
    else if SemanticContains(semantic, ROLE) || SemanticContains(semantic, VLAN) || SemanticContains(semantic, ACL)
       || SemanticContains(semantic, DYNAMIC_ACL) || SemanticContains(semantic, PORTAL_PROFILE)
         || SemanticContains(semantic, BANDWIDTH_PROFILE)
       || SemanticContains(semantic, UPLOAD_BANDWIDTH) || SemanticContains(semantic, DOWNLOAD_BANDWIDTH)
       || SemanticContains(semantic, SESSION_TIMEOUT) || SemanticContains(semantic, IDLE_TIMEOUT)
         then ["inbound", "outbound_reply"]
    else ["inbound"]
  }

  /** `longTailNamespaceDirections`. */
  function Directions(e: Entry, semantic: string): seq<string> {
    MergeDirections(e.directions, InferredDirections(e, semantic))
  }

  lemma {:induction false} DirectionSurvives(existing: seq<string>, inferred: seq<string>, d: string)
    requires d in inferred && FoldDirection(d) == d != ""
    ensures d in MergeDirections(existing, inferred)
  {
    MergedDirections(existing, inferred, d);
    assert d in existing + inferred;
  }

  lemma {:induction false} InboundIsFolded()
    ensures FoldDirection("inbound") == "inbound"
  {
    StripFixed(IsSpace, "inbound");
    assert Lower("inbound") == "inbound";
  }

  /** Every attribute can at least come in. */
  lemma {:induction false} DirectionsHaveInbound(e: Entry, semantic: string)
    ensures "inbound" in Directions(e, semantic)
  {
    InboundIsFolded();
    DirectionSurvives(e.directions, InferredDirections(e, semantic), "inbound");
  }

  // ----- decoding

  /** `firstNonEmptyPackKey` on two values. */
  function FirstNonEmpty(a: string, b: string): (r: string)
    ensures Visible(b) || !Blank(a) ==> Visible(r)
  {
    TrimTrim(a);
    TrimTrim(b);
    BlankIsAllSpace(b);
    if !Blank(a) then Trim(a) else Trim(b)
  }

  function Decode(kind: string, semantic: string, scale: int): (d: Decoder)
    requires Visible(kind) && Visible(semantic)
    ensures !Blank(d.kind) && !Blank(d.semantic)
  {
    VisibleIsText(kind);
    VisibleIsText(semantic);
    Decoder(kind, semantic, scale)
  }

  /** `longTailNamespaceDecoder`: a decoder exists exactly for the one-octet numbers, and always with a
      kind and a semantic. */
  function DecoderFor(e: Entry, semantic: string): (d: Decoder)
    ensures if 1 <= e.number <= 255 then !Blank(d.kind) && !Blank(d.semantic) else d.kind == "" && d.semantic == ""
  {
    if e.number == 0 || e.number > 255 then Decoder("", "", 0)
    else
      var wire, primary := BaseType(e.wireType), First(semantic);
      if Sensitive(e.attribute) then Decode("octets_hex", CERTIFICATE_ONBOARDING, 0)
      else if wire == "ipaddr" || wire == "ipv4addr" then Decode("ipaddr", FirstNonEmpty(primary, IPV4_ADDRESS), 0)
      else if wire == "ipv6addr" then Decode("ipv6addr", FirstNonEmpty(primary, IPV6_ADDRESS), 0)
      else if wire == "ether" || wire == "ethernet" then Decode("ether", FirstNonEmpty(primary, ACCOUNTING_IDENTITY), 0)
      else SemanticDecoder(e, semantic, primary)
  }

  /** The cases of the decoder that the semantic and the integer types decide. */
  function SemanticDecoder(e: Entry, semantic: string, primary: string): (d: Decoder)
    ensures !Blank(d.kind) && !Blank(d.semantic)
  {
    if SemanticContains(semantic, DYNAMIC_ACL) && ContainsAny(Lower(e.attribute), ["avpair", "av-pair", "avpairs"])
      then Decode("avpairs", DYNAMIC_ACL, 0)
    else if SemanticContains(semantic, VLAN) && IsInteger(e.wireType) then Decode("vlan", VLAN, 0)
    else if SemanticContains(semantic, UPLOAD_BANDWIDTH) && IsInteger(e.wireType)
      then Decode("rate_kbps", UPLOAD_BANDWIDTH, 1)
    else if SemanticContains(semantic, DOWNLOAD_BANDWIDTH) && IsInteger(e.wireType)
      then Decode("rate_kbps", DOWNLOAD_BANDWIDTH, 1)
    else if SemanticContains(semantic, DATA_QUOTA) && IsInteger(e.wireType) then Decode("data_quota", DATA_QUOTA, 0)
    else if SemanticContains(semantic, QUARANTINE) && (IsInteger(e.wireType) || BaseType(e.wireType) == "bool")
      then Decode("bool", QUARANTINE, 0)
    else if IsInteger(e.wireType) then Decode("integer_text", FirstNonEmpty(primary, POLICY_TAG), 0)
    else if IsBinary(e.wireType) then Decode("octets_hex", FirstNonEmpty(primary, POLICY_TAG), 0)
    else Decode("string", FirstNonEmpty(primary, POLICY_TAG), 0)
  }

  // ----- implementation class and states

  /** `longTailNamespaceImplementationClass`. */
  function ImplementationClass(e: Entry, semantic: string): string {
    var name := Lower(Trim(e.attribute));
    if Sensitive(e.attribute) then "redacted_secret_evidence"
    else if IsBinary(e.wireType) then "typed_binary_evidence"
    else if ContainsAny(name, ["acl", "filter", "firewall", "rule", "avpair", "av-pair", "avpairs", "command", "shell",
                               "cli"]) then "policy_parse_compile"
    else if First(semantic) != POLICY_TAG then "native_semantic_mapping"
    else "typed_passthrough"
  }

  function BinaryProcessing(e: Entry): (r: string)
    ensures Visible(r)
  {
    if e.number == 0 || e.number > 255 then "registry_backed_typed_binary_evidence_without_unsafe_runtime_decoder"
    else "runtime_vsa_decoder_with_bounded_hex_evidence"
  }

  function PacketProcessing(e: Entry, class_: string): (r: string)
    ensures Visible(r)
  {
    match class_
    case "redacted_secret_evidence" => "runtime_vsa_decoder_with_redacted_secret_evidence_and_hash_only_storage"
    case "typed_binary_evidence" => BinaryProcessing(e)
    case "policy_parse_compile" => "generic_policy_key_value_classifier_with_safe_unknown_preservation"
    case "native_semantic_mapping" => "runtime_vsa_decoder_and_neutral_semantic_mapper"
    case _ => "generic_vsa_codec_with_bounded_typed_evidence"
  }

  function PolicyState(semantic: string, class_: string): (r: string)
    ensures Visible(r)
  {
    if class_ == "typed_passthrough" || class_ == "typed_binary_evidence"
      then "typed_evidence_only_until_focused_policy_binding"
    else if class_ == "redacted_secret_evidence" then "secret_metadata_without_cleartext_policy_input"
    else if SemanticContains(semantic, ACL) || SemanticContains(semantic, DYNAMIC_ACL) then "acl_ast_policy_classifier"
    else if SemanticContains(semantic, VLAN) then "vlan_policy_context"
    else if SemanticContains(semantic, BANDWIDTH_PROFILE) || SemanticContains(semantic, UPLOAD_BANDWIDTH)
      || SemanticContains(semantic, DOWNLOAD_BANDWIDTH) then "qos_and_rate_policy_context"
    else if SemanticContains(semantic, PORTAL_PROFILE) then "guest_portal_policy_context"
    else if SemanticContains(semantic, ROUTE) || SemanticContains(semantic, VRF) then "route_and_vrf_policy_context"
    else if SemanticContains(semantic, TRANSLATION_POLICY) then "translation_policy_context"
    else if SemanticContains(semantic, COA_REAUTH) || SemanticContains(semantic, COA_DISCONNECT)
      then "coa_disconnect_policy_context"
    else "neutral_semantic_policy_context"
  }

  function StorageState(class_: string): (r: string)
    ensures Visible(r)
  {
    match class_
    case "redacted_secret_evidence" => "event_ledger_hash_only_no_cleartext_secret_persistence"
    case "typed_binary_evidence" => "event_ledger_bounded_hex_and_registry_metadata"
    case _ => "event_ledger_bounded_string_and_registry_metadata"
  }

  // ----- the runtime pass

  /** The source of the rows that come from the pinned release. */
  const SOURCE := "freeradius-3.2.8"

  /** `applyLongTailNamespaceRuntimeProfile` as a profile pass, for a given set of folded vendor names. */
  function RuntimeProfile(vendors: set<string>, describe: (Entry, string) -> string): Profile {
    Profile(
      (e: Entry) => Lower(Trim(e.vendor)) in vendors && EqualFold(e.source, SOURCE),
      Semantic,
      (e: Entry) => if Blank(e.packKey) then "long-tail" else e.packKey,
      "aegisnas-runtime:nas-0072",
      Directions,
      describe,
      DecoderFor,
      true,
      true)
  }

  /** What a profile's functions promise for every entry. */
  ghost predicate Completing(p: Profile) {
    && p.readsMerged && p.keepsDecoder
    && (forall e :: First(p.semantic(e)) != "" && !Blank(p.pack(e)))
    && (forall e, s :: "inbound" in p.directions(e, s))
    && (forall e: Entry, s: string :: 1 <= e.number <= 255 ==> !Blank(p.decoder(e, s).kind))
  }

  ghost predicate Completed(before: Entry, after: Entry) {
    && after.status != MISSING && First(after.semantic) != "" && !Blank(after.packKey) && "inbound" in after.directions
    && (1 <= before.number <= 255 ==> !Blank(after.decodeKind))
    && (First(before.semantic) != "" ==> First(after.semantic) == First(before.semantic))
  }

  lemma {:induction false} CompletingPass(p: Profile, e: Entry)
    requires Completing(p) && p.applies(e)
    ensures Completed(e, ProfileEntry(p, e))
  {
    ProfileEvolves(p, e);
    MergeKeepsFirst(e.semantic, p.semantic(e));
  }

  lemma {:induction false} ProfileKeepsWire(p: Profile, e: Entry)
    ensures var after := ProfileEntry(p, e); after.pen == e.pen && after.number == e.number
  {
    ProfileEvolves(p, e);
  }

  lemma {:induction false} RuntimeProfileCompletes(vendors: set<string>, describe: (Entry, string) -> string)
    ensures Completing(RuntimeProfile(vendors, describe))
  {
    var p := RuntimeProfile(vendors, describe);
    forall e ensures First(p.semantic(e)) != "" && !Blank(p.pack(e)) {
      SemanticHasPrimary(e);
      VisibleIsText("long-tail");
    }
    forall e, s ensures "inbound" in p.directions(e, s) {
      DirectionsHaveInbound(e, s);
    }
  }

  /** After the long-tail pass, an entry it takes is mapped, has a primary semantic and an inbound
      direction, and has a decode kind whenever its number fits one octet. */
  lemma {:induction false} RuntimePassCompletes(vendors: set<string>, describe: (Entry, string) -> string, e: Entry)
    requires RuntimeProfile(vendors, describe).applies(e)
    ensures Completed(e, ProfileEntry(RuntimeProfile(vendors, describe), e))
  {
    RuntimeProfileCompletes(vendors, describe);
    CompletingPass(RuntimeProfile(vendors, describe), e);
  }
}
