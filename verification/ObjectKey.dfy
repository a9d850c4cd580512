/** Printing and parsing of object-store keys. What a tenant id looks like is a parameter. */
module ObjectKey {
  import opened Wrappers
  import opened Text

  datatype Owner = Tenant(tenantId: string) | Global

  datatype Parsed = Parsed(owner: Owner, purpose: string, year: string, month: string, objectId: string, key: string)

  datatype Error = InvalidObjectKey(key: string)

  /** The year and month (0 to 11) of a valid date in UTC. */
  datatype Moment = Moment(year: int, monthIndex: int)

  predicate IsDigit(c: char) {
    '0' <= c <= '9'
  }

  predicate IsSegmentChar(c: char) {
    'a' <= c <= 'z' || IsDigit(c)
  }

  /** `/^[a-z0-9][a-z0-9-]{0,127}$/` */
  predicate IsSegment(s: string) {
    1 <= |s| <= 128 && IsSegmentChar(s[0]) && forall i :: 1 <= i < |s| ==> IsSegmentChar(s[i]) || s[i] == '-'
  }

  /** `/^\d{4}$/` */
  predicate IsYear(s: string) {
    |s| == 4 && forall i :: 0 <= i < |s| ==> IsDigit(s[i])
  }

  /** `/^(0[1-9]|1[0-2])$/` */
  predicate IsMonth(s: string) {
    |s| == 2 && ((s[0] == '0' && '1' <= s[1] <= '9') || (s[0] == '1' && '0' <= s[1] <= '2'))
  }

  // ---------------------------------------------------------------------------------------------
  // Numbers
  // ---------------------------------------------------------------------------------------------

  function Digit(n: int): char
    requires 0 <= n < 10
  {
    ('0' as int + n) as char
  }

  function Digits(n: nat): string {
    if n < 10 then [Digit(n)] else Digits(n / 10) + [Digit(n % 10)]
  }

  /** `String(n)` */
  function Decimal(n: int): string {
    if n < 0 then "-" + Digits(-n) else Digits(n)
  }

  function PadStart(s: string, width: nat, pad: char): string
    decreases width - |s|
  {
    if |s| >= width then s else PadStart([pad] + s, width, pad)
  }

  function Value(s: string): int {
    if s == "" then 0 else 10 * Value(s[..|s| - 1]) + (s[|s| - 1] as int - '0' as int)
  }

  lemma {:induction false} DigitsAreDigits(n: nat)
    ensures |Digits(n)| >= 1 && forall i :: 0 <= i < |Digits(n)| ==> IsDigit(Digits(n)[i])
    ensures Value(Digits(n)) == n
  {
    if n >= 10 {
      DigitsAreDigits(n / 10);
      assert Digits(n)[..|Digits(n)| - 1] == Digits(n / 10);
    } else {
      assert Digits(n)[..0] == "";
    }
  }

  lemma FourDigits(n: nat)
    ensures |Digits(n)| == 4 <==> 1000 <= n <= 9999
  {
    var a, b, c, d := n / 10, n / 10 / 10, n / 10 / 10 / 10, n / 10 / 10 / 10 / 10;
    DigitsAreDigits(d);
    if n >= 10 {
      assert |Digits(n)| == |Digits(a)| + 1;
      if a >= 10 {
        assert |Digits(a)| == |Digits(b)| + 1;
        if b >= 10 {
          assert |Digits(b)| == |Digits(c)| + 1;
          if c >= 10 {
            assert |Digits(c)| == |Digits(d)| + 1;
          }
        }
      }
    }
  }

  lemma YearIsFourDigits(year: int)
    ensures IsYear(Decimal(year)) <==> 1000 <= year <= 9999
  {
    if year >= 0 {
      DigitsAreDigits(year);
      FourDigits(year);
    } else {
      assert Decimal(year)[0] == '-';
    }
  }

  lemma MonthIsTwoDigits(monthIndex: int)
    requires 0 <= monthIndex < 12
    ensures IsMonth(PadStart(Decimal(monthIndex + 1), 2, '0'))
    ensures Value(PadStart(Decimal(monthIndex + 1), 2, '0')) == monthIndex + 1
  {
    var n := monthIndex + 1;
    if n >= 10 {
      assert Digits(n) == [Digit(1)] + [Digit(n % 10)];
    } else {
      var month := ['0'] + [Digit(n)];
      assert PadStart(Decimal(n), 2, '0') == month;
      assert month[..1] == ['0'] && ['0'][..0] == "";
    }
    DigitsAreDigits(n);
  }

  /** The patterns in words: up to 128 small letters, digits and dashes, no dash first; two digits from 01 to 12. */
  lemma PatternsRead(s: string)
    ensures IsSegment(s) <==>
            && 1 <= |s| <= 128 && s[0] != '-'
            && forall i :: 0 <= i < |s| ==> 'a' <= s[i] <= 'z' || '0' <= s[i] <= '9' || s[i] == '-'
    ensures IsMonth(s) <==> |s| == 2 && '0' <= s[0] <= '9' && '0' <= s[1] <= '9' && 1 <= Value(s) <= 12
  {
    if |s| == 2 {
      assert s[..1][..0] == "" && s[..1][0] == s[0];
      assert Value(s[..1]) == s[0] as int - '0' as int;
    }
  }

  // ---------------------------------------------------------------------------------------------
  // Printing and parsing
  // ---------------------------------------------------------------------------------------------

  function Parse(isTenantId: string -> bool, key: string): Result<Parsed, Error> {
    var parts := Split(key, '/');
    if "" in parts || "." in parts || ".." in parts then Err(InvalidObjectKey(key))
    else if parts[0] == "t" && |parts| == 6 then
      if !IsSegment(parts[2]) || !IsSegment(parts[5]) || !IsYear(parts[3]) || !IsMonth(parts[4]) || !isTenantId(parts[1])
      then Err(InvalidObjectKey(key))
      else Ok(Parsed(Tenant(parts[1]), parts[2], parts[3], parts[4], parts[5], key))
    else if parts[0] == "g" && |parts| == 5 then
      if !IsSegment(parts[1]) || !IsSegment(parts[4]) || !IsYear(parts[2]) || !IsMonth(parts[3]) then Err(InvalidObjectKey(key))
      else Ok(Parsed(Global, parts[1], parts[2], parts[3], parts[4], key))
    else Err(InvalidObjectKey(key))
  }

  function YearMonth(at: Moment): (string, string) {
    (Decimal(at.year), PadStart(Decimal(at.monthIndex + 1), 2, '0'))
  }

  function Parts(owner: Owner, purpose: string, year: string, month: string, objectId: string): (parts: seq<string>)
    ensures |parts| >= 1
  {
    match owner
    case Tenant(id) => ["t", id, purpose, year, month, objectId]
    case Global => ["g", purpose, year, month, objectId]
  }

  /** `ObjectKey.tenant` and `ObjectKey.global`: build the key, then accept it only if it parses. */
  function Build(isTenantId: string -> bool, owner: Owner, purpose: string, objectId: string, at: Option<Moment>): Result<string, Error> {
    if at == None then Err(InvalidObjectKey("(invalid date)"))
    else
      var (year, month) := YearMonth(at.value);
      match Parse(isTenantId, Join(Parts(owner, purpose, year, month, objectId), '/'))
      case Err(e) => Err(e)
      case Ok(parsed) => Ok(parsed.key)
  }

  /** Every accepted key is the join of its parsed parts, which satisfy the rules. */
  lemma AcceptedIsJoin(isTenantId: string -> bool, key: string)
    requires Parse(isTenantId, key).Ok?
    ensures
      var parsed := Parse(isTenantId, key).value;
      && parsed.key == key == Join(Parts(parsed.owner, parsed.purpose, parsed.year, parsed.month, parsed.objectId), '/')
      && IsSegment(parsed.purpose) && IsSegment(parsed.objectId) && IsYear(parsed.year) && IsMonth(parsed.month)
      && (parsed.owner.Tenant? ==> isTenantId(parsed.owner.tenantId) && '/' !in parsed.owner.tenantId)
  {
    var parts := Split(key, '/');
    var parsed := Parse(isTenantId, key).value;
    JoinInvertsSplit(key, '/');
    if parts[0] == "t" {
      assert parts == Parts(parsed.owner, parsed.purpose, parsed.year, parsed.month, parsed.objectId);
    } else {
      assert parts == Parts(parsed.owner, parsed.purpose, parsed.year, parsed.month, parsed.objectId);
    }
  }

  lemma JoinCounts(parts: seq<string>, separator: char)
    requires |parts| > 1
    ensures Count(Join(parts, separator), separator) == Count(parts[0], separator) + 1 + Count(Join(parts[1..], separator), separator)
  {
    var rest := Join(parts[1..], separator);
    assert Join(parts, separator) == parts[0] + ([separator] + rest);
    CountJoins(parts[0], [separator] + rest, separator);
    assert ([separator] + rest)[1..] == rest;
  }

  lemma {:induction false} SlashCounts(parts: seq<string>, separator: char)
    requires |parts| >= 1
    ensures Count(Join(parts, separator), separator) >= |parts| - 1
    ensures Count(Join(parts, separator), separator) == |parts| - 1 ==> forall i :: 0 <= i < |parts| ==> Count(parts[i], separator) == 0
  {
    if |parts| > 1 {
      JoinCounts(parts, separator);
      SlashCounts(parts[1..], separator);
      forall i | 1 <= i < |parts| ensures parts[i] == parts[1..][i - 1] {}
    }
  }

  /** A join of more separators than parts splits into more parts: a part that contains `/` never goes unnoticed. */
  lemma SlashAddsParts(parts: seq<string>, separator: char)
    requires |parts| >= 1
    ensures |Split(Join(parts, separator), separator)| >= |parts|
    ensures |Split(Join(parts, separator), separator)| == |parts| ==> forall p :: p in parts ==> separator !in p
  {
    SlashCounts(parts, separator);
    SplitCount(Join(parts, separator), separator);
    forall i | 0 <= i < |parts| ensures Count(parts[i], separator) == 0 <==> separator !in parts[i] {
      SplitCount(parts[i], separator);
    }
  }

  function Count(s: string, separator: char): nat {
    if s == "" then 0 else (if s[0] == separator then 1 else 0) + Count(s[1..], separator)
  }

  lemma {:induction false} CountJoins(a: string, b: string, separator: char)
    ensures Count(a + b, separator) == Count(a, separator) + Count(b, separator)
  {
    if a == "" {
      assert a + b == b;
    } else {
      CountJoins(a[1..], b, separator);
      assert (a + b)[1..] == a[1..] + b;
    }
  }

  lemma {:induction false} SplitCount(s: string, separator: char)
    ensures |Split(s, separator)| == Count(s, separator) + 1
    ensures Count(s, separator) == 0 <==> separator !in s
  {
    if s != "" {
      SplitCount(s[1..], separator);
      assert s == [s[0]] + s[1..];
    }
  }

  predicate IsPlainId(id: string) {
    '/' !in id && id != "" && id != "." && id != ".."
  }

  /**
   * Building succeeds exactly on a valid date in the years 1000 to 9999, well-formed purpose and object id, and for a
   * tenant a valid id without `/`; and then parsing returns exactly what was printed.
   */
  lemma BuildSucceedsIff(isTenantId: string -> bool, owner: Owner, purpose: string, objectId: string, at: Option<Moment>)
    requires at.Some? ==> 0 <= at.value.monthIndex < 12
    ensures
      Build(isTenantId, owner, purpose, objectId, at).Ok? <==>
      && at.Some? && 1000 <= at.value.year <= 9999 && IsSegment(purpose) && IsSegment(objectId)
      && (owner.Tenant? ==> isTenantId(owner.tenantId) && IsPlainId(owner.tenantId))
    ensures
      Build(isTenantId, owner, purpose, objectId, at).Ok? ==>
        var key := Build(isTenantId, owner, purpose, objectId, at).value;
        var (year, month) := YearMonth(at.value);
        Parse(isTenantId, key) == Ok(Parsed(owner, purpose, year, month, objectId, key))
  {
    if at.Some? {
      var (year, month) := YearMonth(at.value);
      var parts := Parts(owner, purpose, year, month, objectId);
      YearIsFourDigits(at.value.year);
      MonthIsTwoDigits(at.value.monthIndex);
      if forall p :: p in parts ==> '/' !in p {
        SplitInvertsJoin(parts, '/');
        PartsAccepted(isTenantId, owner, purpose, year, month, objectId);
      } else {
        PartsWithSlashRejected(isTenantId, owner, purpose, year, month, objectId);
        if IsSegment(purpose) && IsSegment(objectId) && IsYear(year) && (owner.Tenant? ==> IsPlainId(owner.tenantId)) {
          RulesExcludeSlash(owner, purpose, year, month, objectId);
        }
      }
    }
  }

  lemma RulesExcludeSlash(owner: Owner, purpose: string, year: string, month: string, objectId: string)
    requires IsSegment(purpose) && IsSegment(objectId) && IsYear(year) && IsMonth(month)
    requires owner.Tenant? ==> IsPlainId(owner.tenantId)
    ensures forall p :: p in Parts(owner, purpose, year, month, objectId) ==> '/' !in p
  {}

  lemma SegmentsArePlain(s: string)
    ensures IsSegment(s) ==> IsPlainId(s)
    ensures IsYear(s) || IsMonth(s) ==> IsPlainId(s)
  {}

  lemma TenantPartsAccepted(isTenantId: string -> bool, id: string, purpose: string, year: string, month: string, objectId: string, key: string)
    requires Split(key, '/') == ["t", id, purpose, year, month, objectId] && IsMonth(month)
    ensures Parse(isTenantId, key).Ok? <==>
              IsSegment(purpose) && IsSegment(objectId) && IsYear(year) && isTenantId(id) && IsPlainId(id)
    ensures Parse(isTenantId, key).Ok? ==> Parse(isTenantId, key) == Ok(Parsed(Tenant(id), purpose, year, month, objectId, key))
  {
    var parts := Split(key, '/');
    SegmentsArePlain(purpose);
    SegmentsArePlain(objectId);
    SegmentsArePlain(year);
    SegmentsArePlain(month);
    assert parts[1] == id && '/' !in id;
    assert forall p :: p in parts <==> p == "t" || p == id || p == purpose || p == year || p == month || p == objectId;
  }

  lemma GlobalPartsAccepted(isTenantId: string -> bool, purpose: string, year: string, month: string, objectId: string, key: string)
    requires Split(key, '/') == ["g", purpose, year, month, objectId] && IsMonth(month)
    ensures Parse(isTenantId, key).Ok? <==> IsSegment(purpose) && IsSegment(objectId) && IsYear(year)
    ensures Parse(isTenantId, key).Ok? ==> Parse(isTenantId, key) == Ok(Parsed(Global, purpose, year, month, objectId, key))
  {
    var parts := Split(key, '/');
    SegmentsArePlain(purpose);
    SegmentsArePlain(objectId);
    SegmentsArePlain(year);
    SegmentsArePlain(month);
    assert forall p :: p in parts <==> p == "g" || p == purpose || p == year || p == month || p == objectId;
  }

  lemma PartsAccepted(isTenantId: string -> bool, owner: Owner, purpose: string, year: string, month: string, objectId: string)
    requires Split(Join(Parts(owner, purpose, year, month, objectId), '/'), '/') == Parts(owner, purpose, year, month, objectId)
    requires IsMonth(month)
    ensures
      var key := Join(Parts(owner, purpose, year, month, objectId), '/');
      && (Parse(isTenantId, key).Ok? <==>
            && IsSegment(purpose) && IsSegment(objectId) && IsYear(year)
            && (owner.Tenant? ==> isTenantId(owner.tenantId) && IsPlainId(owner.tenantId)))
      && (Parse(isTenantId, key).Ok? ==> Parse(isTenantId, key) == Ok(Parsed(owner, purpose, year, month, objectId, key)))
  {
    var key := Join(Parts(owner, purpose, year, month, objectId), '/');
    match owner
    case Tenant(id) => TenantPartsAccepted(isTenantId, id, purpose, year, month, objectId, key);
    case Global => GlobalPartsAccepted(isTenantId, purpose, year, month, objectId, key);
  }

  lemma PartsWithSlashRejected(isTenantId: string -> bool, owner: Owner, purpose: string, year: string, month: string, objectId: string)
    requires !(forall p :: p in Parts(owner, purpose, year, month, objectId) ==> '/' !in p)
    ensures Parse(isTenantId, Join(Parts(owner, purpose, year, month, objectId), '/')).Err?
  {
    var parts := Parts(owner, purpose, year, month, objectId);
    SlashAddsParts(parts, '/');
    assert |Split(Join(parts, '/'), '/')| > |parts|;
    FirstPart(parts[0], Join(parts[1..], '/'));
    assert Join(parts, '/') == parts[0] + ['/'] + Join(parts[1..], '/');
  }

  lemma FirstPart(first: string, rest: string)
    requires '/' !in first
    ensures Split(first + ['/'] + rest, '/')[0] == first
  {
    SplitPrefix(first, rest, '/');
  }

  /** What an accepted key spells out: the owner, the purpose, the four-digit year, the two-digit month and the object. */
  lemma BuiltKeyReads(isTenantId: string -> bool, owner: Owner, purpose: string, objectId: string, at: Moment) returns (year: string, month: string)
    requires 0 <= at.monthIndex < 12 && Build(isTenantId, owner, purpose, objectId, Some(at)).Ok?
    ensures |year| == 4 && (forall i :: 0 <= i < 4 ==> IsDigit(year[i])) && Value(year) == at.year
    ensures |month| == 2 && (forall i :: 0 <= i < 2 ==> IsDigit(month[i])) && Value(month) == at.monthIndex + 1
    ensures
      var front := match owner case Tenant(id) => "t/" + id + "/" case Global => "g/";
      Build(isTenantId, owner, purpose, objectId, Some(at)) == Ok(front + (purpose + "/" + year + "/" + month + "/" + objectId))
  {
    year, month := YearMonth(at).0, YearMonth(at).1;
    BuildSucceedsIff(isTenantId, owner, purpose, objectId, Some(at));
    YearMonthReads(at);
    JoinParts(owner, purpose, year, month, objectId);
    AcceptedIsJoin(isTenantId, Build(isTenantId, owner, purpose, objectId, Some(at)).value);
  }

  lemma YearMonthReads(at: Moment)
    requires 0 <= at.monthIndex < 12 && 1000 <= at.year <= 9999
    ensures
      var (year, month) := YearMonth(at);
      && IsYear(year) && Value(year) == at.year
      && IsMonth(month) && Value(month) == at.monthIndex + 1
  {
    YearIsFourDigits(at.year);
    MonthIsTwoDigits(at.monthIndex);
    DigitsAreDigits(at.year);
  }

  lemma JoinParts(owner: Owner, purpose: string, year: string, month: string, objectId: string)
    ensures
      var front := match owner case Tenant(id) => "t/" + id + "/" case Global => "g/";
      Join(Parts(owner, purpose, year, month, objectId), '/') == front + (purpose + "/" + year + "/" + month + "/" + objectId)
  {
    var rest := [purpose, year, month, objectId];
    JoinFour(purpose, year, month, objectId);
    match owner {
      case Tenant(id) =>
        assert Parts(owner, purpose, year, month, objectId)[1..] == [id] + rest && ([id] + rest)[1..] == rest;
        assert "t" + ['/'] + (id + ['/'] + Join(rest, '/')) == "t/" + id + "/" + Join(rest, '/');
      case Global =>
        assert Parts(owner, purpose, year, month, objectId)[1..] == rest;
        assert "g" + ['/'] + Join(rest, '/') == "g/" + Join(rest, '/');
    }
  }

  lemma JoinFour(a: string, b: string, c: string, d: string)
    ensures Join([a, b, c, d], '/') == a + "/" + b + "/" + c + "/" + d
  {
    assert [a, b, c, d][1..] == [b, c, d] && [b, c, d][1..] == [c, d] && [c, d][1..] == [d];
    assert Join([c, d], '/') == c + ['/'] + d;
    assert Join([b, c, d], '/') == b + ['/'] + (c + ['/'] + d);
  }

  /** Two accepted keys are equal only when they name the same owner, purpose, month and object: tenants never share a key. */
  lemma KeysAreDistinct(isTenantId: string -> bool, owner: Owner, purpose: string, objectId: string, at: Option<Moment>,
                        owner': Owner, purpose': string, objectId': string, at': Option<Moment>)
    requires at.Some? ==> 0 <= at.value.monthIndex < 12
    requires at'.Some? ==> 0 <= at'.value.monthIndex < 12
    requires Build(isTenantId, owner, purpose, objectId, at).Ok?
    requires Build(isTenantId, owner, purpose, objectId, at) == Build(isTenantId, owner', purpose', objectId', at')
    ensures owner == owner' && purpose == purpose' && objectId == objectId' && at == at'
  {
    BuildSucceedsIff(isTenantId, owner, purpose, objectId, at);
    BuildSucceedsIff(isTenantId, owner', purpose', objectId', at');
    MonthIsTwoDigits(at.value.monthIndex);
    MonthIsTwoDigits(at'.value.monthIndex);
    DigitsAreDigits(at.value.year);
    DigitsAreDigits(at'.value.year);
  }
}
