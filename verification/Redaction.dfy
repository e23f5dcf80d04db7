// Redaction of arbitrary values before they leave the support endpoints.
module Redaction {
  import opened Wrappers

  // JPrim stands for every other non-object value: numbers, booleans, functions.
  datatype Json =
    | JNull
    | JUndefined
    | JDate(ms: int)
    | JStr(text: string)
    | JPrim(tag: int)
    | JArr(items: seq<Json>)
    | JObj(fields: seq<Field>)

  // The own enumerable entries, in order.
  datatype Field = Field(key: string, value: Json)

  const REDACTED := "[REDACTED]"

  /******* Text *******/

  function LowerChar(c: char): (text: string)
    ensures |text| > 0
  {
    if 'A' <= c <= 'Z' then [(c as int - 'A' as int + 'a' as int) as char]
    else if c == '\U{212A}' then "k"
    else if c == '\U{0130}' then "i\U{0307}"
    else [c]
  }

  function Lower(s: string): string {
    if |s| == 0 then "" else LowerChar(s[0]) + Lower(s[1..])
  }

  predicate IsSpace(c: char) {
    || c == ' ' || '\U{0009}' <= c <= '\U{000D}' || c == '\U{00A0}' || c == '\U{1680}' || '\U{2000}' <= c <= '\U{200A}'
    || c == '\U{2028}' || c == '\U{2029}' || c == '\U{202F}' || c == '\U{205F}' || c == '\U{3000}' || c == '\U{FEFF}'
  }

  function TrimStart(s: string): (t: string)
    ensures |t| > 0 ==> !IsSpace(t[0])
  {
    if |s| > 0 && IsSpace(s[0]) then TrimStart(s[1..]) else s
  }

  function TrimEnd(s: string): (t: string)
    ensures t <= s
    ensures |t| > 0 ==> !IsSpace(t[|t| - 1])
  {
    if |s| > 0 && IsSpace(s[|s| - 1]) then TrimEnd(s[..|s| - 1]) else s
  }

  function Trim(s: string): string { TrimEnd(TrimStart(s)) }

  predicate Contains(s: string, part: string) {
    part <= s || (|s| > 0 && Contains(s[1..], part))
  }

  predicate ContainsAny(s: string, parts: seq<string>) {
    exists i :: 0 <= i < |parts| && Contains(s, parts[i])
  }

  /******* Keys *******/

  const FORBIDDEN_KEYS := [
    "password", "passwordHash", "accessToken", "refreshToken", "refreshTokenHash", "previousRefreshTokenHash",
    "sessionTokenHash", "admissionToken", "admissionTokenHash", "tokenHash", "scanNonceHash", "providerRawResponse",
    "providerVerificationRaw", "providerAccessCode", "providerCheckoutUrl", "authorizationUrl", "rawPayload",
    "rawHeaders", "verifiedPayload", "apiKey", "authorization", "cookie", "set-cookie", "x-paystack-signature",
    "x-reference-id", "DATABASE_URL", "REDIS_URL", "PAYSTACK_SECRET_KEY", "MTN_MOMO_API_KEY", "MTN_MOMO_API_SECRET",
    "MTN_MOMO_SUBSCRIPTION_KEY", "JWT_SECRET", "JWT_ACCESS_SECRET", "JWT_REFRESH_SECRET"]

  const HIGH_RISK := ["password", "secret", "token", "apikey", "authorization", "cookie"]

  predicate IsAlphanumeric(c: char) { 'a' <= c <= 'z' || 'A' <= c <= 'Z' || '0' <= c <= '9' }

  function NormalizeKey(key: string): string {
    if |key| == 0 then ""
    else if IsAlphanumeric(key[0]) then LowerChar(key[0]) + NormalizeKey(key[1..])
    else NormalizeKey(key[1..])
  }

  predicate ShouldRedactKey(key: string) {
    var normalized := NormalizeKey(key);
    (exists i :: 0 <= i < |FORBIDDEN_KEYS| && NormalizeKey(FORBIDDEN_KEYS[i]) == normalized)
    || ContainsAny(normalized, HIGH_RISK)
  }

  // Assigning __proto__ on the output object sets its prototype and leaves no entry.
  predicate Kept(key: string) { !ShouldRedactKey(key) && key != "__proto__" }

  /******* Strings *******/

  const URL_MARKS := ["postgres://", "postgresql://", "redis://", "bearer "]

  lemma {:induction false} LowerLonger(s: string)
    ensures |Lower(s)| >= |s|
  {
    if |s| > 0 { LowerLonger(s[1..]); }
  }

  // Environment values as the service keeps them: trimmed, lowered, not empty.
  function SensitiveFragments(env: seq<Option<string>>): (fragments: seq<string>)
    ensures forall i :: 0 <= i < |fragments| ==> |fragments[i]| > 0
  {
    if |env| == 0 then []
    else
      var front := SensitiveFragments(env[..|env| - 1]);
      var last := env[|env| - 1];
      if last.Some? && |Trim(last.value)| > 0 then LowerLonger(Trim(last.value)); front + [Lower(Trim(last.value))]
      else front
  }

  predicate ShouldRedactString(value: string, secrets: seq<string>) {
    var trimmed := Trim(value);
    |trimmed| > 0
    && var lower := Lower(trimmed);
       ContainsAny(lower, URL_MARKS) || ContainsAny(lower, HIGH_RISK) || ContainsAny(lower, secrets)
  }

  /******* Values *******/

  function Redact(v: Json, secrets: seq<string>): Json
    decreases v
  {
    match v
    case JArr(items) => JArr(RedactItems(items, secrets))
    case JObj(fields) => JObj(RedactFields(fields, secrets))
    case JStr(text) => if ShouldRedactString(text, secrets) then JStr(REDACTED) else v
    case _ => v
  }

  function RedactItems(items: seq<Json>, secrets: seq<string>): (after: seq<Json>)
    ensures |after| == |items|
    ensures forall i :: 0 <= i < |items| ==> after[i] == Redact(items[i], secrets)
    decreases items
  {
    if |items| == 0 then []
    else RedactItems(items[..|items| - 1], secrets) + [Redact(items[|items| - 1], secrets)]
  }

  function RedactFields(fields: seq<Field>, secrets: seq<string>): seq<Field>
    decreases fields
  {
    if |fields| == 0 then []
    else
      var front := RedactFields(fields[..|fields| - 1], secrets);
      var f := fields[|fields| - 1];
      var child := Redact(f.value, secrets);
      if Kept(f.key) && child != JUndefined then front + [Field(f.key, child)] else front
  }

  method RedactUnknown(v: Json, secrets: seq<string>) returns (r: Json)
    ensures r == Redact(v, secrets)
    decreases v
  {
    match v {
      case JArr(items) =>
        var mapped: seq<Json> := [];
        for i := 0 to |items|
          invariant |mapped| == i
          invariant forall j :: 0 <= j < i ==> mapped[j] == Redact(items[j], secrets)
        {
          var entry := RedactUnknown(items[i], secrets);
          mapped := mapped + [entry];
        }
        assert mapped == RedactItems(items, secrets);
        return JArr(mapped);
      case JStr(text) =>
        return if ShouldRedactString(text, secrets) then JStr(REDACTED) else v;
      case JObj(fields) =>
        var output: seq<Field> := [];
        for i := 0 to |fields|
          invariant output == RedactFields(fields[..i], secrets)
        {
          assert fields[..i + 1][..i] == fields[..i];
          if !ShouldRedactKey(fields[i].key) {
            var child := RedactUnknown(fields[i].value, secrets);
            if child != JUndefined && fields[i].key != "__proto__" {
              output := output + [Field(fields[i].key, child)];
            }
          }
        }
        assert fields[..|fields|] == fields;
        return JObj(output);
      case _ =>
        return v;
    }
  }
}
