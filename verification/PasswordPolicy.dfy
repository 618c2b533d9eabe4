/** Password policies, the floor a forced rotation adds, and the reuse check. */
module PasswordPolicy {
  import opened Common

  datatype Policy = Policy(
    minLength: int,
    requireUppercase: bool,
    requireLowercase: bool,
    requireDigit: bool,
    requireSymbol: bool,
    historyCount: int)

  const DEFAULT_POLICY := Policy(8, false, false, false, false, 0)

  /** One key of a policy dictionary; a stored policy may set any of them. */
  datatype Setting =
    | MinLength(n: int)
    | RequireUppercase(b: bool)
    | RequireLowercase(b: bool)
    | RequireDigit(b: bool)
    | RequireSymbol(b: bool)
    | HistoryCount(n: int)

  datatype Key = KMinLength | KUppercase | KLowercase | KDigit | KSymbol | KHistory

  function KeyOf(s: Setting): Key {
    match s
    case MinLength(_) => KMinLength
    case RequireUppercase(_) => KUppercase
    case RequireLowercase(_) => KLowercase
    case RequireDigit(_) => KDigit
    case RequireSymbol(_) => KSymbol
    case HistoryCount(_) => KHistory
  }

  function Assign(p: Policy, s: Setting): Policy {
    match s
    case MinLength(n) => p.(minLength := n)
    case RequireUppercase(b) => p.(requireUppercase := b)
    case RequireLowercase(b) => p.(requireLowercase := b)
    case RequireDigit(b) => p.(requireDigit := b)
    case RequireSymbol(b) => p.(requireSymbol := b)
    case HistoryCount(n) => p.(historyCount := n)
  }

  /** {**DEFAULT_POLICY, **settings} */
  function Effective(settings: seq<Setting>): Policy {
    if settings == [] then DEFAULT_POLICY
    else Assign(Effective(settings[..|settings| - 1]), settings[|settings| - 1])
  }

  /** The stricter of the base's value and the floor's, for the floor's key. */
  function Strictest(base: Policy, s: Setting): Setting {
    match s
    case MinLength(n) => MinLength(Max(base.minLength, n))
    case RequireUppercase(b) => RequireUppercase(base.requireUppercase || b)
    case RequireLowercase(b) => RequireLowercase(base.requireLowercase || b)
    case RequireDigit(b) => RequireDigit(base.requireDigit || b)
    case RequireSymbol(b) => RequireSymbol(base.requireSymbol || b)
    case HistoryCount(n) => HistoryCount(Max(base.historyCount, n))
  }

  function MergedBy(base: Policy, floor: seq<Setting>): Policy {
    if floor == [] then base
    else Assign(MergedBy(base, floor[..|floor| - 1]), Strictest(base, floor[|floor| - 1]))
  }

  method MergePolicyFloor(settings: seq<Setting>, floor: seq<Setting>) returns (merged: Policy)
    ensures merged == MergedBy(Effective(settings), floor)
  {
    var base := Effective(settings);
    merged := base;
    for i := 0 to |floor|
      invariant merged == MergedBy(base, floor[..i])
    {
      assert floor[..i + 1][..i] == floor[..i];
      merged := Assign(merged, Strictest(base, floor[i]));
    }
    assert floor[..|floor|] == floor;
  }

  // ---- Accepting a password ----

  /** The character classes are whatever the platform says they are. */
  datatype Alphabet = Alphabet(upper: char -> bool, lower: char -> bool, digit: char -> bool, symbol: char -> bool)

  datatype PolicyError = TooShort | NoUppercase | NoLowercase | NoDigit | NoSymbol

  predicate Has(password: string, c: char -> bool) {
    exists i :: 0 <= i < |password| && c(password[i])
  }

  function Validate(a: Alphabet, password: string, p: Policy): Option<PolicyError> {
    if |password| < p.minLength then Some(TooShort)
    else if p.requireUppercase && !Has(password, a.upper) then Some(NoUppercase)
    else if p.requireLowercase && !Has(password, a.lower) then Some(NoLowercase)
    else if p.requireDigit && !Has(password, a.digit) then Some(NoDigit)
    else if p.requireSymbol && !Has(password, a.symbol) then Some(NoSymbol)
    else None
  }

  /** An ideal salted hash; a stored value that bcrypt cannot parse matches nothing. */
  datatype Hash = Hash(password: string, salt: int) | Malformed

  predicate Matches(password: string, h: Hash) {
    h.Hash? && h.password == password
  }

  /** check_password_history: one of the last `count` entries matches. */
  predicate Reused(password: string, history: seq<Hash>, count: int) {
    count > 0 && exists h :: h in LastN(history, count) && Matches(password, h)
  }

  method CheckPasswordHistory(password: string, history: seq<Hash>, count: int) returns (reused: bool)
    ensures reused <==> Reused(password, history, count)
  {
    if history == [] || count <= 0 {
      return false;
    }
    var window := LastN(history, count);
    for i := 0 to |window|
      invariant forall j :: 0 <= j < i ==> !Matches(password, window[j])
    {
      if Matches(password, window[i]) {
        return true;
      }
    }
    return false;
  }

  predicate Accepts(a: Alphabet, p: Policy, password: string, history: seq<Hash>) {
    Validate(a, password, p).None? && !Reused(password, history, p.historyCount)
  }

  // ---- What the checks demand, character by character ----

  /** Every demand of the policy, over the positions of the password. */
  ghost predicate Meets(a: Alphabet, password: string, p: Policy) {
    && |password| >= p.minLength
    && (p.requireUppercase ==> exists i :: 0 <= i < |password| && a.upper(password[i]))
    && (p.requireLowercase ==> exists i :: 0 <= i < |password| && a.lower(password[i]))
    && (p.requireDigit ==> exists i :: 0 <= i < |password| && a.digit(password[i]))
    && (p.requireSymbol ==> exists i :: 0 <= i < |password| && a.symbol(password[i]))
  }

  lemma ValidIff(a: Alphabet, password: string, p: Policy)
    ensures Validate(a, password, p) == None <==> Meets(a, password, p)
  {
  }

  ghost predicate LacksAll(password: string, c: char -> bool) {
    forall i :: 0 <= i < |password| ==> !c(password[i])
  }

  /** The error names the first demand that is not met, in the order length, upper case, lower
      case, digit, symbol. */
  lemma ErrorNamesFirstUnmet(a: Alphabet, password: string, p: Policy)
    ensures var e, q := Validate(a, password, p), p.(requireUppercase := false, requireLowercase := false,
                                                     requireDigit := false, requireSymbol := false);
            var upper := q.(requireUppercase := p.requireUppercase);
            var lower := upper.(requireLowercase := p.requireLowercase);
            var digit := lower.(requireDigit := p.requireDigit);
            && (e == Some(TooShort) <==> |password| < p.minLength)
            && (e == Some(NoUppercase) <==>
                  Meets(a, password, q) && p.requireUppercase && LacksAll(password, a.upper))
            && (e == Some(NoLowercase) <==>
                  Meets(a, password, upper) && p.requireLowercase && LacksAll(password, a.lower))
            && (e == Some(NoDigit) <==> Meets(a, password, lower) && p.requireDigit && LacksAll(password, a.digit))
            && (e == Some(NoSymbol) <==> Meets(a, password, digit) && p.requireSymbol && LacksAll(password, a.symbol))
  {
  }

  ghost predicate MatchAt(password: string, history: seq<Hash>, count: int, i: int) {
    0 <= i < |history| && i >= |history| - count && Matches(password, history[i])
  }

  /** Reuse is a match among the last `count` entries, by position. */
  lemma ReusedMeans(password: string, history: seq<Hash>, count: int)
    ensures Reused(password, history, count) <==> exists i :: MatchAt(password, history, count, i)
  {
    if Reused(password, history, count) {
      var h :| h in LastN(history, count) && Matches(password, h);
      var i := LastNPosition(history, count, h);
      assert MatchAt(password, history, count, i);
    }
    if i :| MatchAt(password, history, count, i) {
      LastNHas(history, count, i);
    }
  }

  /** Twelve characters, with one of each class among them. */
  ghost predicate Strong(a: Alphabet, password: string) {
    && |password| >= 12
    && (exists i :: 0 <= i < |password| && a.upper(password[i]))
    && (exists i :: 0 <= i < |password| && a.lower(password[i]))
    && (exists i :: 0 <= i < |password| && a.digit(password[i]))
    && (exists i :: 0 <= i < |password| && a.symbol(password[i]))
  }

  /** Whatever the tenant's own policy is, what passes under the forced floor is strong. */
  lemma ForcedFloorIsStrong(a: Alphabet, settings: seq<Setting>, password: string)
    requires Validate(a, password, MergedBy(Effective(settings), FORCED_ROTATION_POLICY)) == None
    ensures Strong(a, password)
  {
    var p, f := MergedBy(Effective(settings), FORCED_ROTATION_POLICY), FORCED_ROTATION_POLICY;
    ValidIff(a, password, p);
    ForcedRotationIsFull();
    FloorAt(Effective(settings), f, 0);
    FloorAt(Effective(settings), f, 1);
    FloorAt(Effective(settings), f, 2);
    FloorAt(Effective(settings), f, 3);
    FloorAt(Effective(settings), f, 4);
  }

  /** And differs from each of the last five passwords at least. */
  lemma ForcedFloorLooksBackFive(settings: seq<Setting>, password: string, history: seq<Hash>, i: nat)
    requires !Reused(password, history, MergedBy(Effective(settings), FORCED_ROTATION_POLICY).historyCount)
    requires i < |history| && i >= |history| - 5
    ensures !Matches(password, history[i])
  {
    var count := MergedBy(Effective(settings), FORCED_ROTATION_POLICY).historyCount;
    ForcedRotationIsFull();
    FloorAt(Effective(settings), FORCED_ROTATION_POLICY, 5);
    LastNHas(history, count, i);
  }

  // ---- The merged policy is the conjunction of the two ----

  /** The floor sets each of the six keys exactly once, in any order. */
  ghost predicate IsFullFloor(floor: seq<Setting>) {
    && DistinctKeys(floor)
    && (forall k: Key :: Sets(floor, k))
  }

  ghost predicate Sets(floor: seq<Setting>, k: Key) {
    exists i :: 0 <= i < |floor| && KeyOf(floor[i]) == k
  }

  function Join(p: Policy, q: Policy): Policy {
    Policy(Max(p.minLength, q.minLength),
           p.requireUppercase || q.requireUppercase,
           p.requireLowercase || q.requireLowercase,
           p.requireDigit || q.requireDigit,
           p.requireSymbol || q.requireSymbol,
           Max(p.historyCount, q.historyCount))
  }

  function At(p: Policy, k: Key): Setting {
    match k
    case KMinLength => MinLength(p.minLength)
    case KUppercase => RequireUppercase(p.requireUppercase)
    case KLowercase => RequireLowercase(p.requireLowercase)
    case KDigit => RequireDigit(p.requireDigit)
    case KSymbol => RequireSymbol(p.requireSymbol)
    case KHistory => HistoryCount(p.historyCount)
  }

  lemma AssignAt(p: Policy, s: Setting, k: Key)
    ensures At(Assign(p, s), k) == if KeyOf(s) == k then s else At(p, k)
  {
    match s
    case MinLength(_) =>
    case RequireUppercase(_) =>
    case RequireLowercase(_) =>
    case RequireDigit(_) =>
    case RequireSymbol(_) =>
    case HistoryCount(_) =>
  }

  /** A key set once in the floor takes the stricter value; its own effective policy has the floor's. */
  lemma {:induction false} FloorAt(base: Policy, floor: seq<Setting>, i: nat)
    requires i < |floor|
    requires forall j :: i < j < |floor| ==> KeyOf(floor[i]) != KeyOf(floor[j])
    ensures At(MergedBy(base, floor), KeyOf(floor[i])) == Strictest(base, floor[i])
    ensures At(Effective(floor), KeyOf(floor[i])) == floor[i]
  {
    var front, last, k := floor[..|floor| - 1], floor[|floor| - 1], KeyOf(floor[i]);
    AssignAt(MergedBy(base, front), Strictest(base, last), k);
    AssignAt(Effective(front), last, k);
    if i < |floor| - 1 {
      FloorAt(base, front, i);
    }
  }

  lemma FullFloorIsJoin(base: Policy, floor: seq<Setting>)
    requires IsFullFloor(floor)
    ensures MergedBy(base, floor) == Join(base, Effective(floor))
  {
    forall k: Key ensures At(MergedBy(base, floor), k) == At(Join(base, Effective(floor)), k) {
      assert Sets(floor, k);
      var i :| 0 <= i < |floor| && KeyOf(floor[i]) == k;
      FloorAt(base, floor, i);
      JoinAt(base, Effective(floor), k);
    }
    SameSettings(MergedBy(base, floor), Join(base, Effective(floor)));
  }

  lemma JoinAt(p: Policy, q: Policy, k: Key)
    ensures At(Join(p, q), k) == Strictest(p, At(q, k))
  {
    match k
    case KMinLength =>
    case KUppercase =>
    case KLowercase =>
    case KDigit =>
    case KSymbol =>
    case KHistory =>
  }

  lemma SameSettings(p: Policy, q: Policy)
    requires forall k :: At(p, k) == At(q, k)
    ensures p == q
  {
    assert At(p, KMinLength) == At(q, KMinLength) && At(p, KHistory) == At(q, KHistory);
    assert At(p, KUppercase) == At(q, KUppercase) && At(p, KLowercase) == At(q, KLowercase);
    assert At(p, KDigit) == At(q, KDigit) && At(p, KSymbol) == At(q, KSymbol);
  }

  /** A longer window of the history contains the shorter one. */
  lemma WindowsNest(history: seq<Hash>, m: nat, n: nat, h: Hash)
    requires m <= n && h in LastN(history, m)
    ensures h in LastN(history, n)
  {
    var i :| 0 <= i < |LastN(history, m)| && LastN(history, m)[i] == h;
    var j := i + |LastN(history, n)| - |LastN(history, m)|;
    assert LastN(history, n)[j] == h;
  }

  lemma LongerWindowCatchesMore(password: string, history: seq<Hash>, m: int, n: int)
    ensures Reused(password, history, Max(m, n)) <==> Reused(password, history, m) || Reused(password, history, n)
  {
    var low, high := Min(m, n), Max(m, n);
    if Reused(password, history, low) {
      var h :| h in LastN(history, low) && Matches(password, h);
      WindowsNest(history, low, high, h);
    }
  }

  /** For every password, history and tenant policy, a full floor's merged policy accepts exactly
      what both policies accept, reuse window included. */
  lemma MergedAcceptsWhatBothAccept(a: Alphabet, settings: seq<Setting>, floor: seq<Setting>, password: string,
                                    history: seq<Hash>)
    requires IsFullFloor(floor)
    ensures Accepts(a, MergedBy(Effective(settings), floor), password, history)
       <==> Accepts(a, Effective(settings), password, history) && Accepts(a, Effective(floor), password, history)
  {
    FullFloorIsJoin(Effective(settings), floor);
    LongerWindowCatchesMore(password, history, Effective(settings).historyCount, Effective(floor).historyCount);
  }

  const FORCED_ROTATION_POLICY: seq<Setting> :=
    [MinLength(12), RequireUppercase(true), RequireLowercase(true), RequireDigit(true), RequireSymbol(true),
     HistoryCount(5)]

  /** The one floor the application uses is a full one. */
  lemma ForcedRotationIsFull()
    ensures IsFullFloor(FORCED_ROTATION_POLICY)
  {
    var f := FORCED_ROTATION_POLICY;
    forall k: Key ensures Sets(f, k) {
      var i := match k
        case KMinLength => 0
        case KUppercase => 1
        case KLowercase => 2
        case KDigit => 3
        case KSymbol => 4
        case KHistory => 5;
      assert KeyOf(f[i]) == k;
    }
  }

  // ---- Floors that leave keys out ----

  /** A key the floor does not set keeps the base's value, and the default in its own policy. */
  lemma {:induction false} UnsetKeyKept(base: Policy, floor: seq<Setting>, k: Key)
    requires !Sets(floor, k)
    ensures At(MergedBy(base, floor), k) == At(base, k)
    ensures At(Effective(floor), k) == At(DEFAULT_POLICY, k)
  {
    if floor == [] {
    } else {
      var front, last := floor[..|floor| - 1], floor[|floor| - 1];
      assert KeyOf(floor[|floor| - 1]) != k;
      assert forall i :: 0 <= i < |front| ==> front[i] == floor[i];
      UnsetKeyKept(base, front, k);
      AssignAt(MergedBy(base, front), Strictest(base, last), k);
      AssignAt(Effective(front), last, k);
    }
  }

  ghost predicate DistinctKeys(floor: seq<Setting>) {
    forall i, j :: 0 <= i < j < |floor| ==> KeyOf(floor[i]) != KeyOf(floor[j])
  }

  /** Key by key: the stricter value where the floor sets it, the base's where it does not. */
  lemma MergedAt(base: Policy, floor: seq<Setting>, k: Key)
    requires DistinctKeys(floor)
    ensures At(MergedBy(base, floor), k) == if Sets(floor, k) then At(Join(base, Effective(floor)), k) else At(base, k)
    ensures !Sets(floor, k) ==> At(Effective(floor), k) == At(DEFAULT_POLICY, k)
  {
    if Sets(floor, k) {
      var i :| 0 <= i < |floor| && KeyOf(floor[i]) == k;
      FloorAt(base, floor, i);
      JoinAt(base, Effective(floor), k);
    } else {
      UnsetKeyKept(base, floor, k);
    }
  }

  /** Only the default minimum length can be missing from the merged policy: the other defaults
      demand nothing. */
  lemma MergedIsJoinButForLength(base: Policy, floor: seq<Setting>)
    requires DistinctKeys(floor)
    ensures var merged, join := MergedBy(base, floor), Join(base, Effective(floor));
            && merged == join.(minLength := merged.minLength, historyCount := merged.historyCount)
            && Max(merged.historyCount, 0) == Max(join.historyCount, 0)
            && merged.minLength == (if Sets(floor, KMinLength) then join.minLength else base.minLength)
            && (!Sets(floor, KMinLength) ==> join.minLength == Max(base.minLength, DEFAULT_POLICY.minLength))
  {
    var merged, join := MergedBy(base, floor), Join(base, Effective(floor));
    MergedAt(base, floor, KMinLength);
    MergedAt(base, floor, KUppercase);
    MergedAt(base, floor, KLowercase);
    MergedAt(base, floor, KDigit);
    MergedAt(base, floor, KSymbol);
    MergedAt(base, floor, KHistory);
  }

  /** Accepting under the merged policy is accepting under both. */
  ghost predicate AcceptsBoth(base: Policy, floor: seq<Setting>) {
    forall a, password, history ::
      Accepts(a, MergedBy(base, floor), password, history)
      <==> Accepts(a, base, password, history) && Accepts(a, Effective(floor), password, history)
  }

  lemma JoinAccepts(a: Alphabet, p: Policy, q: Policy, password: string, history: seq<Hash>)
    ensures Accepts(a, Join(p, q), password, history)
       <==> Accepts(a, p, password, history) && Accepts(a, q, password, history)
  {
    LongerWindowCatchesMore(password, history, p.historyCount, q.historyCount);
  }

  /** Any seven characters, where every character is in every class, satisfy all but a longer minimum. */
  const ANY_CHARACTER := Alphabet(_ => true, _ => true, _ => true, _ => true)

  lemma SevenCharactersPass(p: Policy)
    ensures Accepts(ANY_CHARACTER, p, "abcdefg", []) <==> p.minLength <= 7
  {
    var s := "abcdefg";
    assert ANY_CHARACTER.upper(s[0]) && ANY_CHARACTER.lower(s[0]) && ANY_CHARACTER.digit(s[0])
           && ANY_CHARACTER.symbol(s[0]);
    assert Has(s, ANY_CHARACTER.upper) && Has(s, ANY_CHARACTER.lower);
    assert Has(s, ANY_CHARACTER.digit) && Has(s, ANY_CHARACTER.symbol);
  }

  /** The merged policy of any floor, with whatever keys it has, is the conjunction of the two
      policies if and only if the floor sets min_length or the tenant's is at least the default 8. */
  lemma FloorIsConjunctionIff(base: Policy, floor: seq<Setting>)
    requires DistinctKeys(floor)
    ensures AcceptsBoth(base, floor) <==> Sets(floor, KMinLength) || base.minLength >= 8
  {
    var merged, join := MergedBy(base, floor), Join(base, Effective(floor));
    MergedIsJoinButForLength(base, floor);
    if Sets(floor, KMinLength) || base.minLength >= DEFAULT_POLICY.minLength {
      forall a, password, history
        ensures Accepts(a, merged, password, history)
           <==> Accepts(a, base, password, history) && Accepts(a, Effective(floor), password, history)
      {
        JoinAccepts(a, base, Effective(floor), password, history);
      }
    } else {
      SevenCharactersPass(merged);
      SevenCharactersPass(base);
      SevenCharactersPass(Effective(floor));
      MergedAt(base, floor, KMinLength);
    }
  }

  /** Such as a tenant minimum of 6 under a floor with a history count only: six characters pass,
      which the floor on its own would refuse. */
  lemma PartialFloorIsWeaker(a: Alphabet)
    ensures var settings, floor := [MinLength(6)], [HistoryCount(5)];
            && Accepts(a, MergedBy(Effective(settings), floor), "abcdef", [])
            && !Accepts(a, Effective(floor), "abcdef", [])
  {
    assert Effective([MinLength(6)]) == DEFAULT_POLICY.(minLength := 6);
    assert Effective([HistoryCount(5)]) == DEFAULT_POLICY.(historyCount := 5);
  }
}
