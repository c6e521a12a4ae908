// internal/store/contracts/storedobject.go: what the stores hold, and what makes it well formed.

module Contracts {
  import opened Wrappers

  datatype StoredObject = StoredObject(
    id: string,
    appServiceKey: string,
    payload: Bytes,
    retryCount: int,
    pipelinePosition: int,
    version: string,
    correlationID: string,
    eventID: string,
    eventChecksum: string)

  function NewStoredObject(appServiceKey: string, payload: Bytes, pipelinePosition: int, version: string)
    : StoredObject
  {
    StoredObject("", appServiceKey, payload, 0, pipelinePosition, version, "", "", "")
  }

  // ---- UUIDs (section 3 of RFC 4122, plus the spellings the UUID library reads) ----

  predicate IsHex(c: char) {
    '0' <= c <= '9' || 'a' <= c <= 'f' || 'A' <= c <= 'F'
  }

  predicate IsLowerHex(c: char) {
    '0' <= c <= '9' || 'a' <= c <= 'f'
  }

  function LowerChar(c: char): char {
    if 'A' <= c <= 'Z' then (c as int + 32) as char else c
  }

  function Lower(s: string): (r: string)
    ensures |r| == |s|
  {
    seq(|s|, i requires 0 <= i < |s| => LowerChar(s[i]))
  }

  predicate IsDash(i: int) {
    i == 8 || i == 13 || i == 18 || i == 23
  }

  // The 36-character form: dashes in their places, hexadecimal digits elsewhere.
  predicate IsDashed(s: string) {
    |s| == 36 && forall i :: 0 <= i < 36 ==> if IsDash(i) then s[i] == '-' else IsHex(s[i])
  }

  // The output form: lower case only.
  predicate IsCanonical(s: string) {
    |s| == 36 && forall i :: 0 <= i < 36 ==> if IsDash(i) then s[i] == '-' else IsLowerHex(s[i])
  }

  function InsertDashes(s: string): string
    requires |s| == 32
  {
    s[..8] + "-" + s[8..12] + "-" + s[12..16] + "-" + s[16..20] + "-" + s[20..]
  }

  function ParseDashed(s: string): Option<string> {
    if IsDashed(s) then Some(Lower(s)) else None
  }

  // Parsing followed by printing: any accepted spelling to its canonical text.
  function ParseUuid(s: string): Option<string> {
    if |s| == 36 then ParseDashed(s)
    else if |s| == 45 then if Lower(s[..9]) == "urn:uuid:" then ParseDashed(s[9..]) else None
    else if |s| == 38 then ParseDashed(s[1..37])
    else if |s| == 32 && forall c <- s :: IsHex(c) then Some(Lower(InsertDashes(s)))
    else None
  }

  lemma DashesAreInserted(s: string)
    requires |s| == 32 && forall c <- s :: IsHex(c)
    ensures IsDashed(InsertDashes(s))
  {
    var d := InsertDashes(s);
    forall i | 0 <= i < 36 ensures if IsDash(i) then d[i] == '-' else IsHex(d[i]) {
      var dashes := if i < 8 then 0 else if i < 13 then 1 else if i < 18 then 2 else if i < 23 then 3 else 4;
      assert !IsDash(i) ==> d[i] == s[i - dashes];
    }
  }

  lemma ParseIsCanonical(s: string)
    ensures ParseUuid(s).Some? ==> IsCanonical(ParseUuid(s).value)
  {
    if |s| == 32 && forall c <- s :: IsHex(c) { DashesAreInserted(s); }
  }

  lemma ParseKeepsCanonical(s: string)
    requires IsCanonical(s)
    ensures ParseUuid(s) == Some(s)
  {
    assert Lower(s) == s;
  }

  // The same digit, in lower case.
  predicate LowerOf(c: char, d: char) {
    if 'A' <= d <= 'F' then c as int == d as int + 32 else c == d
  }

  // The same text but for the case of its digits.
  ghost predicate InLowerCase(canonical: string, text: string) {
    |canonical| == |text| && forall i :: 0 <= i < |text| ==> LowerOf(canonical[i], text[i])
  }

  function WithoutDashes(s: string): string
    requires |s| == 36
  {
    s[..8] + s[9..13] + s[14..18] + s[19..23] + s[24..]
  }

  // The dashed form is read as it stands, after the URN prefix, between any two characters, and without its
  // dashes; and it comes out in lower case.
  lemma FormsAreRead(s: string)
    requires IsDashed(s)
    ensures ParseUuid(s).Some? && InLowerCase(ParseUuid(s).value, s)
    ensures forall prefix :: |prefix| == 9 && Lower(prefix) == "urn:uuid:" ==> ParseUuid(prefix + s) == ParseUuid(s)
    ensures forall c, d :: ParseUuid([c] + s + [d]) == ParseUuid(s)
    ensures ParseUuid(WithoutDashes(s)) == ParseUuid(s)
  {
    forall prefix | |prefix| == 9 && Lower(prefix) == "urn:uuid:" ensures ParseUuid(prefix + s) == ParseUuid(s) {
      assert (prefix + s)[..9] == prefix && (prefix + s)[9..] == s;
    }
    forall c, d ensures ParseUuid([c] + s + [d]) == ParseUuid(s) { assert ([c] + s + [d])[1..37] == s; }
    PlainIsDashed(s);
  }

  // No other text is read.
  lemma OnlyFormsAreRead(s: string)
    ensures ParseUuid(s).Some? ==>
              || IsDashed(s)
              || (|s| == 45 && IsDashed(s[9..]) && Lower(s[..9]) == "urn:uuid:")
              || (|s| == 38 && IsDashed(s[1..37]))
              || (|s| == 32 && IsDashed(InsertDashes(s)))
  {
    if |s| == 32 && forall c <- s :: IsHex(c) { DashesAreInserted(s); }
  }

  lemma PlainIsDashed(s: string)
    requires IsDashed(s)
    ensures ParseUuid(WithoutDashes(s)) == ParseUuid(s)
  {
    var plain := WithoutDashes(s);
    assert InsertDashes(plain) == s by {
      assert plain[..8] == s[..8] && plain[8..12] == s[9..13] && plain[12..16] == s[14..18];
      assert plain[16..20] == s[19..23] && plain[20..] == s[24..];
      assert s == s[..8] + [s[8]] + s[9..13] + [s[13]] + s[14..18] + [s[18]] + s[19..23] + [s[23]] + s[24..];
    }
    forall i | 0 <= i < 32 ensures IsHex(plain[i]) {
      var dashes := if i < 8 then 0 else if i < 12 then 1 else if i < 16 then 2 else if i < 20 then 3 else 4;
      assert plain[i] == s[i + dashes] && !IsDash(i + dashes);
    }
  }

  // ---- ValidateContract ----

  // The receiver's ID is rewritten to canonical text; `generated` is what uuid.New().String() would return.
  function ValidateContract(o: StoredObject, idRequired: bool, generated: string): Result<StoredObject> {
    if idRequired && o.id == "" then Failure("invalid contract, ID cannot be empty")
    else
      var parsed := ParseUuid(if o.id == "" then generated else o.id);
      if parsed.None? then Failure("invalid contract, ID must be UUID")
      else if o.appServiceKey == "" then Failure("invalid contract, app service key cannot be empty")
      else if |o.payload| == 0 then Failure("invalid contract, payload cannot be empty")
      else if o.version == "" then Failure("invalid contract, version cannot be empty")
      else Success(o.(id := parsed.value))
  }

  // What every stored object satisfies.
  predicate WellFormed(o: StoredObject) {
    IsCanonical(o.id) && o.appServiceKey != "" && |o.payload| > 0 && o.version != ""
  }

  // Validation accepts an object exactly when its fields are present and its ID (or the generated
  // one) is a UUID; what it returns is well formed, differs in the ID alone, and validates to itself.
  lemma ValidateExactly(o: StoredObject, idRequired: bool, generated: string)
    ensures var r := ValidateContract(o, idRequired, generated);
            && (r.Success? <==>
                && (idRequired ==> o.id != "")
                && ParseUuid(if o.id == "" then generated else o.id).Some?
                && o.appServiceKey != "" && o.payload != [] && o.version != "")
            && (r.Success? ==>
                  && WellFormed(r.value)
                  && r.value.(id := o.id) == o
                  && ValidateContract(r.value, true, "") == r
                  && ValidateContract(r.value, false, generated) == r)
    ensures WellFormed(o) ==> ValidateContract(o, idRequired, generated) == Success(o)
  {
    ParseIsCanonical(if o.id == "" then generated else o.id);
    var r := ValidateContract(o, idRequired, generated);
    if r.Success? {
      ParseKeepsCanonical(r.value.id);
    }
    if WellFormed(o) {
      ParseKeepsCanonical(o.id);
    }
  }

  // Everything but the retry counter and the three optional strings.
  predicate SameOrigin(a: StoredObject, b: StoredObject) {
    && a.id == b.id && a.appServiceKey == b.appServiceKey && a.payload == b.payload
    && a.pipelinePosition == b.pipelinePosition && a.version == b.version
  }

  // Everything but the three optional strings: what retrieval returns exactly from either store.
  predicate SameCore(a: StoredObject, b: StoredObject) {
    SameOrigin(a, b) && a.retryCount == b.retryCount
  }
}
