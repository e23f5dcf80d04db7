// What redaction removes, what it keeps, and that doing it twice changes nothing.
module RedactionProofs {
  import opened Wrappers
  import opened Redaction

  /******* Clean values *******/

  // At every depth: only kept keys, no undefined entry, every string harmless.
  ghost predicate Clean(v: Json, secrets: seq<string>)
    decreases v
  {
    match v
    case JArr(items) => forall i :: 0 <= i < |items| ==> Clean(items[i], secrets)
    case JObj(fields) =>
      forall i :: 0 <= i < |fields| ==>
        Kept(fields[i].key) && fields[i].value != JUndefined && Clean(fields[i].value, secrets)
    case JStr(text) => text == REDACTED || !ShouldRedactString(text, secrets)
    case _ => true
  }

  lemma {:induction false} RedactedIsClean(v: Json, secrets: seq<string>)
    ensures Clean(Redact(v, secrets), secrets)
    decreases v
  {
    match v
    case JArr(items) =>
      forall i | 0 <= i < |items| ensures Clean(Redact(items[i], secrets), secrets) {
        RedactedIsClean(items[i], secrets);
      }
    case JObj(fields) => RedactedFieldsAreClean(fields, secrets);
    case _ =>
  }

  lemma {:induction false} RedactedFieldsAreClean(fields: seq<Field>, secrets: seq<string>)
    ensures Clean(JObj(RedactFields(fields, secrets)), secrets)
    decreases fields
  {
    if |fields| != 0 {
      var n := |fields| - 1;
      RedactedFieldsAreClean(fields[..n], secrets);
      RedactedIsClean(fields[n].value, secrets);
    }
  }

  lemma {:induction false} CleanIsUnchanged(v: Json, secrets: seq<string>)
    requires Clean(v, secrets)
    ensures Redact(v, secrets) == v
    decreases v
  {
    match v
    case JArr(items) =>
      forall i | 0 <= i < |items| ensures Redact(items[i], secrets) == items[i] {
        CleanIsUnchanged(items[i], secrets);
      }
      assert RedactItems(items, secrets) == items;
    case JObj(fields) => CleanFieldsAreUnchanged(fields, secrets);
    case _ =>
  }

  lemma {:induction false} CleanFieldsAreUnchanged(fields: seq<Field>, secrets: seq<string>)
    requires Clean(JObj(fields), secrets)
    ensures RedactFields(fields, secrets) == fields
    decreases fields
  {
    if |fields| != 0 {
      var n := |fields| - 1;
      assert Clean(JObj(fields[..n]), secrets);
      CleanFieldsAreUnchanged(fields[..n], secrets);
      CleanIsUnchanged(fields[n].value, secrets);
      assert fields == fields[..n] + [fields[n]];
    }
  }

  // Redaction leaves a value alone exactly when it is clean already.
  lemma {:induction false} UnchangedExactlyWhenClean(v: Json, secrets: seq<string>)
    ensures Redact(v, secrets) == v <==> Clean(v, secrets)
    decreases v
  {
    if Redact(v, secrets) == v { RedactedIsClean(v, secrets); }
    if Clean(v, secrets) { CleanIsUnchanged(v, secrets); }
  }

  // The double redaction of audit metadata is one redaction.
  lemma RedactingTwiceIsOnce(v: Json, secrets: seq<string>)
    ensures Redact(Redact(v, secrets), secrets) == Redact(v, secrets)
  {
    RedactedIsClean(v, secrets);
    CleanIsUnchanged(Redact(v, secrets), secrets);
  }

  // A value without parts stays what it is, unless it is a string to be withheld.
  lemma LeavesEnd(v: Json, secrets: seq<string>)
    requires !v.JArr? && !v.JObj?
    ensures Redact(v, secrets)
            == if v.JStr? && ShouldRedactString(v.text, secrets) then JStr("[REDACTED]") else v
  {
  }

  /******* What survives *******/

  datatype Hop = Key(name: string) | Index(i: nat)

  function Find(fields: seq<Field>, key: string): Option<Json> {
    if |fields| == 0 then None
    else if fields[|fields| - 1].key == key then Some(fields[|fields| - 1].value)
    else Find(fields[..|fields| - 1], key)
  }

  function At(v: Json, path: seq<Hop>): Option<Json>
    decreases path
  {
    if |path| == 0 then Some(v)
    else
      match path[0]
      case Key(name) =>
        if !v.JObj? || Find(v.fields, name).None? then None else At(Find(v.fields, name).value, path[1..])
      case Index(i) =>
        if !v.JArr? || i >= |v.items| then None else At(v.items[i], path[1..])
  }

  // Keys of an object are distinct.
  ghost predicate Distinct(v: Json)
    decreases v
  {
    match v
    case JArr(items) => forall i :: 0 <= i < |items| ==> Distinct(items[i])
    case JObj(fields) =>
      && (forall i :: 0 <= i < |fields| ==> Distinct(fields[i].value))
      && (forall i, j :: 0 <= i < j < |fields| ==> fields[i].key != fields[j].key)
    case _ => true
  }

  predicate KeptPath(path: seq<Hop>) {
    forall i :: 0 <= i < |path| ==> path[i].Key? ==> Kept(path[i].name)
  }

  // An undefined value is no entry of an object, though it may be an array item.
  predicate Present(v: Json, path: seq<Hop>) {
    At(v, path).Some? && !(|path| > 0 && path[|path| - 1].Key? && At(v, path).value == JUndefined)
  }

  lemma {:induction false} FindAmong(fields: seq<Field>, key: string)
    ensures Find(fields, key).None? <==> forall i :: 0 <= i < |fields| ==> fields[i].key != key
    ensures Find(fields, key).Some? ==>
              exists i :: 0 <= i < |fields| && fields[i] == Field(key, Find(fields, key).value)
  {
    if |fields| != 0 { FindAmong(fields[..|fields| - 1], key); }
  }

  lemma {:induction false} FindRedacted(fields: seq<Field>, secrets: seq<string>, key: string)
    requires forall i, j :: 0 <= i < j < |fields| ==> fields[i].key != fields[j].key
    ensures Find(RedactFields(fields, secrets), key)
            == if Kept(key) && Find(fields, key).Some? && Find(fields, key).value != JUndefined
               then Some(Redact(Find(fields, key).value, secrets)) else None
  {
    if |fields| != 0 {
      var n := |fields| - 1;
      FindRedacted(fields[..n], secrets, key);
      FindAmong(fields[..n], key);
      var front, f := RedactFields(fields[..n], secrets), fields[n];
      assert (front + [Field(f.key, Redact(f.value, secrets))])[..|front|] == front;
    }
  }

  lemma KeptPathSplit(path: seq<Hop>)
    requires |path| > 0
    ensures KeptPath(path) <==> (path[0].Key? ==> Kept(path[0].name)) && KeptPath(path[1..])
  {
    if KeptPath(path[1..]) {
      forall i | 1 <= i < |path| && path[i].Key? ensures Kept(path[i].name) {
        assert path[i] == path[1..][i - 1];
      }
    }
  }

  // What a path finds in the redacted value, from what it finds in the value.
  function Survivor(v: Json, secrets: seq<string>, path: seq<Hop>): Option<Json> {
    if Present(v, path) && KeptPath(path) then Some(Redact(At(v, path).value, secrets)) else None
  }

  lemma ThroughKey(v: Json, secrets: seq<string>, path: seq<Hop>)
    requires |path| > 0 && path[0].Key? && v.JObj? && Distinct(v)
    requires var child := Find(v.fields, path[0].name);
             child.Some? ==> At(Redact(child.value, secrets), path[1..]) == Survivor(child.value, secrets, path[1..])
    ensures At(Redact(v, secrets), path) == Survivor(v, secrets, path)
  {
    FindRedacted(v.fields, secrets, path[0].name);
    KeptPathSplit(path);
    assert |path| > 1 ==> path[1..][|path| - 2] == path[|path| - 1];
  }

  lemma ThroughIndex(v: Json, secrets: seq<string>, path: seq<Hop>)
    requires |path| > 0 && path[0].Index? && v.JArr? && path[0].i < |v.items|
    requires var child := v.items[path[0].i];
             At(Redact(child, secrets), path[1..]) == Survivor(child, secrets, path[1..])
    ensures At(Redact(v, secrets), path) == Survivor(v, secrets, path)
  {
    KeptPathSplit(path);
    assert |path| > 1 ==> path[1..][|path| - 2] == path[|path| - 1];
  }

  // Down any path, the redacted value holds the redaction of what the original
  // holds there, exactly when the original has something there and every key on
  // the way is kept; otherwise it holds nothing.
  lemma {:induction false} SurvivesExactly(v: Json, secrets: seq<string>, path: seq<Hop>)
    requires Distinct(v)
    ensures At(Redact(v, secrets), path)
            == if Present(v, path) && KeptPath(path) then Some(Redact(At(v, path).value, secrets)) else None
    decreases path
  {
    if |path| != 0 {
      match path[0]
      case Key(name) =>
        if v.JObj? {
          FindAmong(v.fields, name);
          var child := Find(v.fields, name);
          if child.Some? { SurvivesExactly(child.value, secrets, path[1..]); }
          ThroughKey(v, secrets, path);
        }
      case Index(i) =>
        if v.JArr? && i < |v.items| {
          SurvivesExactly(v.items[i], secrets, path[1..]);
          ThroughIndex(v, secrets, path);
        }
    }
  }

  /******* Keys and spaces *******/

  lemma {:induction false} NormalizeTwice(key: string)
    ensures NormalizeKey(NormalizeKey(key)) == NormalizeKey(key)
  {
    if |key| != 0 {
      NormalizeTwice(key[1..]);
      if IsAlphanumeric(key[0]) {
        assert NormalizeKey(key)[1..] == NormalizeKey(key[1..]);
      }
    }
  }

  lemma {:induction false} NormalizeConcat(a: string, b: string)
    ensures NormalizeKey(a + b) == NormalizeKey(a) + NormalizeKey(b)
  {
    if |a| == 0 {
      assert a + b == b;
    } else {
      NormalizeConcat(a[1..], b);
      assert (a + b)[1..] == a[1..] + b;
      if IsAlphanumeric(a[0]) {
        var head := LowerChar(a[0]);
        assert head + (NormalizeKey(a[1..]) + NormalizeKey(b)) == (head + NormalizeKey(a[1..])) + NormalizeKey(b);
      }
    }
  }

  // What a key is compared by: its letters in lower case and its digits, in order.
  lemma NormalizedByLetter(key: string, c: char)
    ensures NormalizeKey("") == ""
    ensures 'a' <= c <= 'z' || '0' <= c <= '9' ==> NormalizeKey(key + [c]) == NormalizeKey(key) + [c]
    ensures 'A' <= c <= 'Z' ==> NormalizeKey(key + [c]) == NormalizeKey(key) + [(c as int + 32) as char]
    ensures !('a' <= c <= 'z') && !('A' <= c <= 'Z') && !('0' <= c <= '9') ==>
              NormalizeKey(key + [c]) == NormalizeKey(key)
  {
    NormalizeConcat(key, [c]);
    assert [c][1..] == "" && NormalizeKey([c]) == if IsAlphanumeric(c) then LowerChar(c) else "";
  }

  // The keys that are withheld: those spelled like one of these names, and those
  // with one of six words in them.
  lemma WithheldKeysExactly(key: string)
    ensures ShouldRedactKey(key)
       <==> ContainsAny(NormalizeKey(key), ["password", "secret", "token", "apikey", "authorization", "cookie"])
            || exists name :: NormalizeKey(key) == NormalizeKey(name) && name in [
                 "password", "passwordHash", "accessToken", "refreshToken", "refreshTokenHash",
                 "previousRefreshTokenHash", "sessionTokenHash", "admissionToken", "admissionTokenHash", "tokenHash",
                 "scanNonceHash", "providerRawResponse", "providerVerificationRaw", "providerAccessCode",
                 "providerCheckoutUrl", "authorizationUrl", "rawPayload", "rawHeaders", "verifiedPayload", "apiKey",
                 "authorization", "cookie", "set-cookie", "x-paystack-signature", "x-reference-id", "DATABASE_URL",
                 "REDIS_URL", "PAYSTACK_SECRET_KEY", "MTN_MOMO_API_KEY", "MTN_MOMO_API_SECRET",
                 "MTN_MOMO_SUBSCRIPTION_KEY", "JWT_SECRET", "JWT_ACCESS_SECRET", "JWT_REFRESH_SECRET"]
  {
    if i :| 0 <= i < |FORBIDDEN_KEYS| && NormalizeKey(FORBIDDEN_KEYS[i]) == NormalizeKey(key) {
      assert FORBIDDEN_KEYS[i] in FORBIDDEN_KEYS;
    }
  }

  // Case and punctuation never let a key through.
  lemma SpellingDoesNotMatter(key: string)
    ensures ShouldRedactKey(key) <==> ShouldRedactKey(NormalizeKey(key))
  {
    NormalizeTwice(key);
  }

  lemma {:induction false} LowerConcat(a: string, b: string)
    ensures Lower(a + b) == Lower(a) + Lower(b)
  {
    if |a| == 0 {
      assert a + b == b;
    } else {
      LowerConcat(a[1..], b);
      assert (a + b)[1..] == a[1..] + b && (a + b)[0] == a[0];
      var head := LowerChar(a[0]);
      assert head + (Lower(a[1..]) + Lower(b)) == (head + Lower(a[1..])) + Lower(b);
    }
  }

  // A fragment with no space at either end.
  predicate Solid(part: string) {
    |part| > 0 && !IsSpace(part[0]) && !IsSpace(part[|part| - 1])
  }

  lemma {:induction false} DropLast(s: string, c: char, part: string)
    requires Solid(part) && IsSpace(c)
    ensures Contains(s + [c], part) <==> Contains(s, part)
  {
    if |s| == 0 {
      assert !Contains((s + [c])[1..], part);
    } else {
      DropLast(s[1..], c, part);
      assert (s + [c])[1..] == s[1..] + [c];
    }
  }

  lemma {:induction false} TrimStartHidesNothing(s: string, part: string)
    requires Solid(part)
    ensures Contains(Lower(TrimStart(s)), part) <==> Contains(Lower(s), part)
  {
    if |s| > 0 && IsSpace(s[0]) {
      TrimStartHidesNothing(s[1..], part);
      assert Lower(s) == [s[0]] + Lower(s[1..]);
      assert Lower(s)[1..] == Lower(s[1..]);
    }
  }

  lemma {:induction false} TrimEndHidesNothing(s: string, part: string)
    requires Solid(part)
    ensures Contains(Lower(TrimEnd(s)), part) <==> Contains(Lower(s), part)
  {
    if |s| > 0 && IsSpace(s[|s| - 1]) {
      var n := |s| - 1;
      TrimEndHidesNothing(s[..n], part);
      LowerConcat(s[..n], [s[n]]);
      assert s == s[..n] + [s[n]];
      assert Lower([s[n]]) == [s[n]];
      DropLast(Lower(s[..n]), s[n], part);
    }
  }

  // Trimming a string before looking hides no fragment that has no space at its
  // ends, which is every one but "bearer ".
  lemma TrimHidesNothing(s: string, part: string)
    requires Solid(part)
    ensures Contains(Lower(Trim(s)), part) <==> Contains(Lower(s), part)
  {
    TrimStartHidesNothing(s, part);
    TrimEndHidesNothing(TrimStart(s), part);
  }

  lemma {:induction false} LowerKeepsEnds(s: string)
    requires Solid(s)
    ensures Solid(Lower(s))
  {
    if |s| == 1 {
      assert Lower(s) == LowerChar(s[0]);
    } else {
      var n := |s| - 1;
      LowerConcat(s[..n], [s[n]]);
      assert s == s[..n] + [s[n]];
      assert Lower([s[n]]) == LowerChar(s[n]);
      assert Lower(s)[0] == LowerChar(s[0])[0];
    }
  }

  lemma TrimStartsSolid(s: string)
    requires |Trim(s)| > 0
    ensures Solid(Trim(s))
  {
    assert Trim(s)[0] == TrimStart(s)[0];
  }

  lemma {:induction false} FragmentsAreSolid(env: seq<Option<string>>)
    ensures forall i :: 0 <= i < |SensitiveFragments(env)| ==> Solid(SensitiveFragments(env)[i])
  {
    if |env| != 0 {
      FragmentsAreSolid(env[..|env| - 1]);
      var last := env[|env| - 1];
      if last.Some? && |Trim(last.value)| > 0 {
        TrimStartsSolid(last.value);
        LowerKeepsEnds(Trim(last.value));
      }
    }
  }

  lemma TrimHidesNone(s: string, parts: seq<string>)
    requires forall i :: 0 <= i < |parts| ==> Solid(parts[i])
    ensures ContainsAny(Lower(Trim(s)), parts) <==> ContainsAny(Lower(s), parts)
  {
    forall i | 0 <= i < |parts| ensures Contains(Lower(Trim(s)), parts[i]) <==> Contains(Lower(s), parts[i]) {
      TrimHidesNothing(s, parts[i]);
    }
  }

  // A string is withheld exactly when its lower-case form has a database URL, a
  // risky word or an environment secret anywhere, or its trimmed form has
  // "bearer " before something.
  lemma WithheldExactly(s: string, env: seq<Option<string>>)
    ensures var secrets := SensitiveFragments(env);
            ShouldRedactString(s, secrets)
            <==> ContainsAny(Lower(s), ["postgres://", "postgresql://", "redis://"])
                 || ContainsAny(Lower(s), ["password", "secret", "token", "apikey", "authorization", "cookie"])
                 || ContainsAny(Lower(s), secrets) || Contains(Lower(Trim(s)), "bearer ")
  {
    assert URL_MARKS[..3] == ["postgres://", "postgresql://", "redis://"];
    var secrets := SensitiveFragments(env);
    FragmentsAreSolid(env);
    TrimHidesNone(s, secrets);
    TrimHidesNone(s, HIGH_RISK);
    TrimHidesNone(s, URL_MARKS[..3]);
    var lower := Lower(Trim(s));
    assert ContainsAny(lower, URL_MARKS) <==> ContainsAny(lower, URL_MARKS[..3]) || Contains(lower, "bearer ") by {
      assert URL_MARKS[3] == "bearer ";
      if i :| 0 <= i < 4 && Contains(lower, URL_MARKS[i]) {
        if i < 3 { assert Contains(lower, URL_MARKS[..3][i]); }
      }
      if i :| 0 <= i < 3 && Contains(lower, URL_MARKS[..3][i]) { assert Contains(lower, URL_MARKS[i]); }
    }
  }

  lemma BearerLower()
    ensures Lower("bearer ") == "bearer " && Lower("bearer") == "bearer"
  {
    assert Lower("er") == "er" && Lower("er ") == "er ";
    assert Lower("rer") == "rer" && Lower("rer ") == "rer ";
    assert Lower("arer") == "arer" && Lower("arer ") == "arer ";
    assert Lower("earer") == "earer" && Lower("earer ") == "earer ";
  }

  lemma {:induction false} TooLong(s: string, part: string)
    requires |part| > |s|
    ensures !Contains(s, part)
  {
    if |s| == 0 {
      assert |part| > |s|;
    } else {
      TooLong(s[1..], part);
    }
  }

  // A part can only start where its first letter stands.
  lemma {:induction false} NoSuchLetter(s: string, part: string)
    requires |part| > 0 && forall i :: 0 <= i < |s| ==> s[i] != part[0]
    ensures !Contains(s, part)
  {
    if |s| == 0 {
      assert |part| > |s|;
    } else {
      assert s[0] != part[0];
      NoSuchLetter(s[1..], part);
    }
  }

  lemma ApikeyNotInBearer()
    ensures !Contains("bearer", "apikey")
  {
    assert "bearer"[0] != "apikey"[0];
    TooLong("bearer"[1..], "apikey");
  }

  lemma NoMarkInBearer()
    ensures !ContainsAny("bearer", URL_MARKS) && !ContainsAny("bearer", HIGH_RISK)
  {
    forall i | 0 <= i < |URL_MARKS| ensures !Contains("bearer", URL_MARKS[i]) {
      TooLong("bearer", URL_MARKS[i]);
    }
    forall i | 0 <= i < |HIGH_RISK| ensures !Contains("bearer", HIGH_RISK[i]) {
      if i == 3 {
        ApikeyNotInBearer();
      } else if i == 0 || i == 4 {
        TooLong("bearer", HIGH_RISK[i]);
      } else {
        NoSuchLetter("bearer", HIGH_RISK[i]);
      }
    }
  }

  lemma BearerTrimmed()
    ensures Trim("bearer ") == "bearer"
  {
    assert TrimStart("bearer ") == "bearer ";
    assert "bearer "[..6] == "bearer";
  }

  // A bearer mark with nothing after it goes through, though it contains "bearer ".
  lemma BareBearerIsNotWithheld()
    ensures Contains(Lower("bearer "), URL_MARKS[3]) && !ShouldRedactString("bearer ", [])
  {
    BearerLower();
    BearerTrimmed();
    NoMarkInBearer();
  }
}
