/** String helpers shared by the identity and tenancy contexts: trimming, lower-casing, the opaque digest and hash. */
module Text {

  predicate IsSpace(c: char) {
    c == ' ' || c == '\t' || c == '\n' || c == '\r' || c as int == 0x0B || c as int == 0x0C || c as int == 0xA0 || c as int == 0xFEFF
  }

  function LowerChar(c: char): char {
    if 'A' <= c <= 'Z' then (c as int + 32) as char else c
  }

  function Lower(s: string): (r: string)
    ensures |r| == |s|
  {
    seq(|s|, i requires 0 <= i < |s| => LowerChar(s[i]))
  }

  function UpperChar(c: char): char {
    if 'a' <= c <= 'z' then (c as int - 32) as char else c
  }

  function Upper(s: string): (r: string)
    ensures |r| == |s|
  {
    seq(|s|, i requires 0 <= i < |s| => UpperChar(s[i]))
  }

  function TrimLeft(s: string): string {
    if s != "" && IsSpace(s[0]) then TrimLeft(s[1..]) else s
  }

  function TrimRight(s: string): string {
    if s != "" && IsSpace(s[|s| - 1]) then TrimRight(s[..|s| - 1]) else s
  }

  function Trim(s: string): string {
    TrimRight(TrimLeft(s))
  }

  /** `email.trim().toLowerCase()` */
  function Normalize(s: string): string {
    Lower(Trim(s))
  }

  predicate IsTrimmed(s: string) {
    s != "" ==> !IsSpace(s[0]) && !IsSpace(s[|s| - 1])
  }

  lemma {:induction false} TrimLeftStops(s: string)
    ensures TrimLeft(s) != "" ==> !IsSpace(TrimLeft(s)[0])
  {
    if s != "" && IsSpace(s[0]) {
      TrimLeftStops(s[1..]);
    }
  }

  lemma {:induction false} TrimRightStops(s: string)
    ensures TrimRight(s) <= s
    ensures TrimRight(s) != "" ==> !IsSpace(TrimRight(s)[|TrimRight(s)| - 1])
  {
    if s != "" && IsSpace(s[|s| - 1]) {
      TrimRightStops(s[..|s| - 1]);
    }
  }

  lemma TrimTrims(s: string)
    ensures IsTrimmed(Trim(s))
  {
    TrimLeftStops(s);
    TrimRightStops(TrimLeft(s));
  }

  predicate AllSpaces(s: string) {
    forall i :: 0 <= i < |s| ==> IsSpace(s[i])
  }

  lemma {:induction false} LeftIsCut(s: string) returns (front: string)
    ensures s == front + TrimLeft(s) && AllSpaces(front)
  {
    front := "";
    if s != "" && IsSpace(s[0]) {
      var rest := LeftIsCut(s[1..]);
      front := [s[0]] + rest;
      assert s == [s[0]] + s[1..];
    }
  }

  lemma {:induction false} RightIsCut(s: string) returns (back: string)
    ensures s == TrimRight(s) + back && AllSpaces(back)
  {
    back := "";
    if s != "" && IsSpace(s[|s| - 1]) {
      var rest := RightIsCut(s[..|s| - 1]);
      back := rest + [s[|s| - 1]];
      assert s == s[..|s| - 1] + [s[|s| - 1]];
    }
  }

  /** Trimming cuts off the white space at both ends and nothing else. */
  lemma TrimCutsSpaces(s: string) returns (front: string, back: string)
    ensures s == front + Trim(s) + back && AllSpaces(front) && AllSpaces(back) && IsTrimmed(Trim(s))
  {
    front := LeftIsCut(s);
    back := RightIsCut(TrimLeft(s));
    TrimTrims(s);
  }

  /** Normalising cuts off the white space at both ends and makes capital letters small. */
  lemma NormalizeReads(s: string) returns (front: string, middle: string, back: string)
    ensures s == front + middle + back && AllSpaces(front) && AllSpaces(back) && IsTrimmed(middle)
    ensures |Normalize(s)| == |middle|
    ensures forall i :: 0 <= i < |middle| ==>
              Normalize(s)[i] as int == middle[i] as int + if 'A' <= middle[i] <= 'Z' then 'a' as int - 'A' as int else 0
  {
    front, back := TrimCutsSpaces(s);
    middle := Trim(s);
  }

  lemma TrimmedStays(s: string)
    requires IsTrimmed(s)
    ensures Trim(s) == s
  {}

  /** Normalising a second time, as repositories do with emails that are already normalised, changes nothing. */
  lemma NormalizeIsIdempotent(s: string)
    ensures Normalize(Normalize(s)) == Normalize(s)
  {
    TrimTrims(s);
    assert IsTrimmed(Lower(Trim(s)));
    TrimmedStays(Lower(Trim(s)));
    assert Lower(Lower(Trim(s))) == Lower(Trim(s));
  }

  /** The token digest of the application's tests; everything below uses only that it is injective. */
  function Digest(token: string): string {
    "test-digest:" + token
  }

  lemma DigestIsInjective(a: string, b: string)
    ensures Digest(a) == Digest(b) ==> a == b
  {
    if Digest(a) == Digest(b) {
      assert Digest(a)[|"test-digest:"|..] == a;
      assert Digest(b)[|"test-digest:"|..] == b;
    }
  }

  function Hash(password: string): string {
    "test-hash:" + password
  }

  lemma HashIsInjective(a: string, b: string)
    ensures Hash(a) == Hash(b) ==> a == b
  {
    if Hash(a) == Hash(b) {
      assert Hash(a)[|"test-hash:"|..] == a;
      assert Hash(b)[|"test-hash:"|..] == b;
    }
  }

  predicate VerifyHash(password: string, hash: string) {
    hash == Hash(password)
  }

  /** The digest of one of the tokens that were ever issued. */
  predicate IssuedHash(tokens: set<string>, hash: string) {
    exists t :: t in tokens && hash == Digest(t)
  }

  // ---------------------------------------------------------------------------------------------
  // Splitting and joining
  // ---------------------------------------------------------------------------------------------

  /** `s.split(separator)`: always at least one part. */
  function Split(s: string, separator: char): (parts: seq<string>)
    ensures |parts| >= 1
    ensures forall p :: p in parts ==> separator !in p
  {
    if s == "" then [""]
    else
      var rest := Split(s[1..], separator);
      if s[0] == separator then [""] + rest else [[s[0]] + rest[0]] + rest[1..]
  }

  function Join(parts: seq<string>, separator: char): string
    requires |parts| >= 1
  {
    if |parts| == 1 then parts[0] else parts[0] + [separator] + Join(parts[1..], separator)
  }

  lemma {:induction false} JoinInvertsSplit(s: string, separator: char)
    ensures Join(Split(s, separator), separator) == s
  {
    if s != "" {
      var rest := Split(s[1..], separator);
      JoinInvertsSplit(s[1..], separator);
      var parts := Split(s, separator);
      if s[0] == separator {
        assert parts[1..] == rest;
      } else if |rest| > 1 {
        assert parts[1..] == rest[1..];
        assert ([s[0]] + rest[0]) + [separator] + Join(rest[1..], separator) == [s[0]] + Join(rest, separator);
      }
    }
  }

  lemma {:induction false} SplitPrefix(part: string, s: string, separator: char)
    requires separator !in part
    ensures Split(part + [separator] + s, separator) == [part] + Split(s, separator)
    ensures Split(part, separator) == [part]
  {
    var whole := part + [separator] + s;
    if part == "" {
      assert whole[0] == separator && whole[1..] == s;
    } else {
      SplitPrefix(part[1..], s, separator);
      assert whole[0] == part[0] && whole[1..] == part[1..] + [separator] + s;
      assert [part[0]] + part[1..] == part;
    }
  }

  lemma {:induction false} SplitInvertsJoin(parts: seq<string>, separator: char)
    requires |parts| >= 1 && forall p :: p in parts ==> separator !in p
    ensures Split(Join(parts, separator), separator) == parts
  {
    if |parts| == 1 {
      SplitPrefix(parts[0], "", separator);
    } else {
      SplitInvertsJoin(parts[1..], separator);
      SplitPrefix(parts[0], Join(parts[1..], separator), separator);
    }
  }
}
