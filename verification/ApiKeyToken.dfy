/** Printing and parsing of API-key bearer tokens. */
module ApiKeyToken {
  import opened Wrappers
  import opened Text

  const WIRE_PREFIX := "bsk_"
  const PUBLIC_PREFIX_LENGTH := 12

  predicate IsAlphaNumeric(c: char) {
    'a' <= c <= 'z' || 'A' <= c <= 'Z' || '0' <= c <= '9'
  }

  predicate IsLineTerminator(c: char) {
    c == '\n' || c == '\r' || c as int == 0x2028 || c as int == 0x2029
  }

  predicate IsPublicPrefix(prefix: string) {
    |prefix| == PUBLIC_PREFIX_LENGTH && forall i :: 0 <= i < |prefix| ==> IsAlphaNumeric(prefix[i]) && LowerChar(prefix[i]) == prefix[i]
  }

  /** What follows the second underscore: non-empty and on one line. */
  predicate IsSecret(secret: string) {
    secret != "" && forall i :: 0 <= i < |secret| ==> !IsLineTerminator(secret[i])
  }

  function Create(publicPrefix: string, secret: string): string {
    WIRE_PREFIX + publicPrefix + "_" + secret
  }

  function DisplayPrefix(publicPrefix: string): string {
    WIRE_PREFIX + publicPrefix
  }

  /** `/^bsk_([a-z0-9]{12})_.+$/i` */
  predicate Matches(token: string) {
    && |token| > 17
    && Lower(token[..4]) == WIRE_PREFIX
    && (forall i :: 4 <= i < 16 ==> IsAlphaNumeric(token[i]))
    && token[16] == '_'
    && IsSecret(token[17..])
  }

  function Parse(token: string): Option<string> {
    if Matches(token) then Some(DisplayPrefix(Lower(token[4..16]))) else None
  }

  function WithoutDashes(s: string): string {
    if s == "" then "" else (if s[0] == '-' then "" else [s[0]]) + WithoutDashes(s[1..])
  }

  function CompactId(rawId: string): string {
    var compact := WithoutDashes(rawId);
    if |compact| <= PUBLIC_PREFIX_LENGTH then compact else compact[..PUBLIC_PREFIX_LENGTH]
  }

  /** A minted token parses back to the prefix that is stored with the key. */
  lemma ParseInvertsCreate(publicPrefix: string, secret: string)
    requires IsPublicPrefix(publicPrefix) && IsSecret(secret)
    ensures Create(publicPrefix, secret) == "bsk_" + publicPrefix + "_" + secret
    ensures Parse(Create(publicPrefix, secret)) == Some("bsk_" + publicPrefix) == Some(DisplayPrefix(publicPrefix))
  {
    var token := Create(publicPrefix, secret);
    assert token[..4] == WIRE_PREFIX;
    assert Lower(token[..4]) == WIRE_PREFIX;
    assert token[4..16] == publicPrefix;
    assert token[17..] == secret;
    assert Lower(publicPrefix) == publicPrefix;
  }

  /** Only tokens of the minted shape parse: up to letter case of the first 16 characters, a parsed token was printed. */
  lemma ParsedWasPrinted(token: string)
    ensures Parse(token).Some? <==>
            exists p, secret :: IsPublicPrefix(p) && IsSecret(secret) && |token| >= 16
                                && Lower(token[..16]) == DisplayPrefix(p) && token[16..] == "_" + secret
    ensures Parse(token).Some? ==> Parse(token) == Some(Lower(token[..16]))
  {
    if Matches(token) {
      var p, secret := Lower(token[4..16]), token[17..];
      assert token[..16] == token[..4] + token[4..16];
      assert Lower(token[..16]) == Lower(token[..4]) + Lower(token[4..16]);
      assert token[16..] == "_" + secret;
      assert IsPublicPrefix(p);
    }
    if p, secret :| IsPublicPrefix(p) && IsSecret(secret) && |token| >= 16 && Lower(token[..16]) == DisplayPrefix(p) && token[16..] == "_" + secret {
      assert token[16] == token[16..][0] == '_';
      assert token[17..] == token[16..][1..] == secret;
      forall i | 4 <= i < 16 ensures IsAlphaNumeric(token[i]) {
        assert LowerChar(token[i]) == Lower(token[..16])[i] == p[i - 4];
      }
      assert Lower(token[..4]) == Lower(token[..16])[..4] == WIRE_PREFIX;
    }
  }

  lemma {:induction false} WithoutDashesJoins(a: string, b: string)
    ensures WithoutDashes(a + b) == WithoutDashes(a) + WithoutDashes(b)
  {
    if a == "" {
      assert a + b == b;
    } else {
      assert (a + b)[0] == a[0] && (a + b)[1..] == a[1..] + b;
      WithoutDashesJoins(a[1..], b);
    }
  }

  /** Exactly the dashes drop out: a dash between two texts leaves nothing, and any other character stays in its place. */
  lemma DashesDropOut(a: string, c: char, b: string)
    ensures c == '-' ==> WithoutDashes(a + [c] + b) == WithoutDashes(a) + WithoutDashes(b)
    ensures c != '-' ==> WithoutDashes(a + [c] + b) == WithoutDashes(a) + [c] + WithoutDashes(b)
  {
    assert a + [c] + b == a + ([c] + b);
    WithoutDashesJoins(a, [c] + b);
    assert ([c] + b)[0] == c && ([c] + b)[1..] == b;
  }

  lemma {:induction false} WithoutDashesKeeps(s: string)
    requires forall i :: 0 <= i < |s| ==> s[i] == '-' || (IsAlphaNumeric(s[i]) && LowerChar(s[i]) == s[i])
    ensures forall i :: 0 <= i < |WithoutDashes(s)| ==> IsAlphaNumeric(WithoutDashes(s)[i]) && LowerChar(WithoutDashes(s)[i]) == WithoutDashes(s)[i]
  {
    if s != "" {
      WithoutDashesKeeps(s[1..]);
    }
  }

  /** The front of a generated id of lower-case letters, digits and dashes, dashes dropped, parses if it is long enough. */
  lemma CompactIdIsPublicPrefix(rawId: string)
    requires forall i :: 0 <= i < |rawId| ==> rawId[i] == '-' || (IsAlphaNumeric(rawId[i]) && LowerChar(rawId[i]) == rawId[i])
    ensures IsPublicPrefix(CompactId(rawId)) <==> |WithoutDashes(rawId)| >= 12
    ensures CompactId(rawId) <= WithoutDashes(rawId) && (|CompactId(rawId)| == 12 || CompactId(rawId) == WithoutDashes(rawId))
  {
    WithoutDashesKeeps(rawId);
  }
}
