/**
 Names derived from a service name: bounded in length, valid, and unique up to the hash. The hash
 is a parameter of which only the length and the alphabet matter.
 */
module Names {

  const PREFIX := "elasti-"
  const PRIVATE_POSTFIX := "-pvt"
  const SLICE_POSTFIX := "-endpointslice-to-resolver"
  const HASH_LENGTH := 10
  const MAX_SERVICE := 63
  const MAX_SLICE := 253

  type Hash = string -> string

  predicate IsHex(c: char) { '0' <= c <= '9' || 'a' <= c <= 'f' }

  /** What is used of SHA-256 in hexadecimal: 64 lower-case hex digits. */
  ghost predicate Hexadecimal(h: Hash) {
    forall s :: |h(s)| == 64 && forall i :: 0 <= i < |h(s)| ==> IsHex(h(s)[i])
  }

  function TrimHyphens(s: string): (r: string)
    ensures r <= s && (r != "" ==> r[|r| - 1] != '-') && forall i :: |r| <= i < |s| ==> s[i] == '-'
  {
    if s != "" && s[|s| - 1] == '-' then TrimHyphens(s[..|s| - 1]) else s
  }

  function BuildName(h: Hash, name: string, postfix: string, maxLength: nat): string
    requires Hexadecimal(h)
  {
    var hashed := h(name)[..HASH_LENGTH];
    var overhead := |PREFIX| + |postfix| + 1 + HASH_LENGTH;
    var room := if maxLength >= overhead then maxLength - overhead else 0;
    PREFIX + (if |name| > room then TrimHyphens(name[..room]) else name) + postfix + "-" + hashed
  }

  function PrivateServiceName(h: Hash, service: string): string
    requires Hexadecimal(h)
  {
    BuildName(h, service, PRIVATE_POSTFIX, MAX_SERVICE)
  }

  function EndpointSliceName(h: Hash, service: string): string
    requires Hexadecimal(h)
  {
    BuildName(h, service, SLICE_POSTFIX, MAX_SLICE)
  }

  predicate IsLower(c: char) { 'a' <= c <= 'z' }

  predicate IsLowerAlnum(c: char) { IsLower(c) || '0' <= c <= '9' }

  /** Characters of a lower-case DNS label. */
  predicate LabelChars(s: string) {
    forall i :: 0 <= i < |s| ==> IsLowerAlnum(s[i]) || s[i] == '-'
  }

  /** A label as section 2.3.1 of RFC 1035 has it, in lower case. */
  predicate ValidLabel(s: string) {
    0 < |s| <= 63 && LabelChars(s) && IsLower(s[0]) && IsLowerAlnum(s[|s| - 1])
  }

  /** The parts of a built name. */
  lemma BuildNameParts(h: Hash, name: string, postfix: string, maxLength: nat) returns (kept: string)
    requires Hexadecimal(h) && |PREFIX| + |postfix| + 1 + HASH_LENGTH <= maxLength
    ensures kept <= name && |kept| <= maxLength - (|PREFIX| + |postfix| + 1 + HASH_LENGTH)
    ensures |name| <= maxLength - (|PREFIX| + |postfix| + 1 + HASH_LENGTH) ==> kept == name
    ensures BuildName(h, name, postfix, maxLength) == PREFIX + kept + postfix + "-" + h(name)[..HASH_LENGTH]
    ensures kept != "" && name[|name| - 1] != '-' ==> kept[|kept| - 1] != '-'
    ensures kept == name || forall i :: |kept| <= i < maxLength - (|PREFIX| + |postfix| + 1 + HASH_LENGTH) ==> name[i] == '-'
  {
    var room := maxLength - (|PREFIX| + |postfix| + 1 + HASH_LENGTH);
    kept := if |name| > room then TrimHyphens(name[..room]) else name;
  }

  /** With no room for the service, only the fixed parts and the hash are left. */
  lemma NoRoom(h: Hash, name: string, postfix: string, maxLength: nat)
    requires Hexadecimal(h) && maxLength <= |PREFIX| + |postfix| + 1 + HASH_LENGTH
    ensures BuildName(h, name, postfix, maxLength) == PREFIX + "" + postfix + "-" + h(name)[..HASH_LENGTH]
  {
  }

  /** The name as it is written: the service between fixed parts, cut to the room there is for it without a
      hyphen at the cut, and ten digits of its hash. */
  lemma PrivateNameIs(h: Hash, service: string) returns (kept: string)
    requires Hexadecimal(h)
    ensures PrivateServiceName(h, service) == "elasti-" + kept + "-pvt" + "-" + h(service)[..10]
    ensures kept <= service && |kept| <= 41
    ensures kept == service || (|service| > 41 && forall i :: |kept| <= i < 41 ==> service[i] == '-')
  {
    kept := BuildNameParts(h, service, PRIVATE_POSTFIX, MAX_SERVICE);
  }

  lemma SliceNameIs(h: Hash, service: string) returns (kept: string)
    requires Hexadecimal(h)
    ensures EndpointSliceName(h, service) == "elasti-" + kept + "-endpointslice-to-resolver" + "-" + h(service)[..10]
    ensures kept <= service && |kept| <= 209
    ensures kept == service || (|service| > 209 && forall i :: |kept| <= i < 209 ==> service[i] == '-')
  {
    kept := BuildNameParts(h, service, SLICE_POSTFIX, MAX_SLICE);
  }

  lemma BuiltNameValid(h: Hash, name: string, postfix: string, maxLength: nat)
    requires Hexadecimal(h) && |PREFIX| + |postfix| + 1 + HASH_LENGTH <= maxLength
    requires LabelChars(name) && LabelChars(postfix)
    ensures var r := BuildName(h, name, postfix, maxLength);
            0 < |r| <= maxLength && LabelChars(r) && IsLower(r[0]) && IsLowerAlnum(r[|r| - 1])
  {
  }

  /** The private service of every label-shaped service name is a valid Service name. */
  lemma PrivateNameValid(h: Hash, service: string)
    requires Hexadecimal(h) && LabelChars(service)
    ensures ValidLabel(PrivateServiceName(h, service))
  {
  }

  /** And its EndpointSlice name is within the bound for those. */
  lemma SliceNameValid(h: Hash, service: string)
    requires Hexadecimal(h) && LabelChars(service)
    ensures var r := EndpointSliceName(h, service);
            0 < |r| <= MAX_SLICE && LabelChars(r) && IsLower(r[0]) && IsLowerAlnum(r[|r| - 1])
  {
    BuiltNameValid(h, service, SLICE_POSTFIX, MAX_SLICE);
  }

  lemma SameTail(a: string, b: string, x: string, y: string)
    requires a + x == b + y && |x| == |y|
    ensures a == b && x == y
  {
    assert |a| == |b|;
    assert (a + x)[..|a|] == a && (b + y)[..|b|] == b;
    assert (a + x)[|a|..] == x && (b + y)[|b|..] == y;
  }

  /** Two services share a private name only if their hashes agree; short ones never do. */
  lemma Collisions(h: Hash, a: string, b: string)
    requires Hexadecimal(h) && PrivateServiceName(h, a) == PrivateServiceName(h, b)
    ensures h(a)[..HASH_LENGTH] == h(b)[..HASH_LENGTH]
    ensures |a| <= 41 && |b| <= 41 ==> a == b
  {
    var ka := BuildNameParts(h, a, PRIVATE_POSTFIX, MAX_SERVICE);
    var kb := BuildNameParts(h, b, PRIVATE_POSTFIX, MAX_SERVICE);
    var pa, pb := PREFIX + ka + PRIVATE_POSTFIX + "-", PREFIX + kb + PRIVATE_POSTFIX + "-";
    SameTail(pa, pb, h(a)[..HASH_LENGTH], h(b)[..HASH_LENGTH]);
    var ta, tb := PREFIX + ka, PREFIX + kb;
    assert pa == ta + (PRIVATE_POSTFIX + "-") && pb == tb + (PRIVATE_POSTFIX + "-");
    SameTail(ta, tb, PRIVATE_POSTFIX + "-", PRIVATE_POSTFIX + "-");
    SameTail(PREFIX, PREFIX, ka, kb);
  }
}
