/**
 * The currency rule table and the settlement-date resolver of
 * `SettlementDateManager`: which weekdays each currency settles on, how the
 * table is read from property key/value pairs, and how a requested date moves
 * forward to the first allowed weekday.
 *
 * The Java class keeps the table in two fields filled once by its private
 * constructor and never changed afterwards; here the table is an immutable
 * `RuleTable` value that the loading method returns and the resolver takes.
 */
module SettlementDateManager {
  import opened Wrappers
  import opened JavaStrings
  import opened Calendar

  /** Keys that start with this configure a currency. */
  const SettlementDaysPrefix: string := "currency.settlementDays"
  /** What is removed from such a key to obtain the currency. */
  const SettlementDaysKeyPrefix: string := "currency.settlementDays."
  /** The key that configures the default days. */
  const DefaultKey: string := "currency.default"
  /** The name reported for a malformed default day list. */
  const DefaultName: string := "default"

  /**
   * The errors of the settlement package. `UnparsableDay` and `UnknownCurrency`
   * are `SettlementConfigurationException`s; `NoValidSettlementDay` is a
   * `SettlementException`.
   */
  datatype SettlementError =
    | UnparsableDay(currency: string, day: string)
    | UnknownCurrency(currency: string)
    | NoValidSettlementDay(currency: string)

  /** `currencyDaySettlement` and `defaultDaySettlement` (`null` is `None`). */
  datatype RuleTable = RuleTable(currencyDaySettlement: map<string, set<int>>, defaultDaySettlement: Option<set<int>>)

  const EmptyTable: RuleTable := RuleTable(map[], None)

  // ---------------------------------------------------------------------------
  // parseSettlementDays
  // ---------------------------------------------------------------------------

  /** The weekday a single token of a day list denotes: `Integer.parseInt(day.trim())`. */
  function TokenDay(token: string): Option<int> {
    ParseInt(Trim(token))
  }

  /** Tokens `0..i` parse under `parse` and token `i` is the first one that does not. */
  ghost predicate FirstBadToken(tokens: seq<string>, parse: string -> Option<int>, i: int) {
    0 <= i < |tokens| && parse(tokens[i]).None?
    && forall j :: 0 <= j < i ==> parse(tokens[j]).Some?
  }

  /**
   * The set of weekdays a list of tokens denotes when each token is read by
   * `parse`, or the error for the first token that does not parse.
   */
  function ParsedTokens(currency: string, tokens: seq<string>, parse: string -> Option<int>): Result<set<int>, SettlementError>
    decreases |tokens|
  {
    if tokens == [] then Success({})
    else
      var last := tokens[|tokens| - 1];
      var front := ParsedTokens(currency, tokens[..|tokens| - 1], parse);
      if front.Failure? then front
      else if parse(last).None? then Failure(UnparsableDay(currency, last))
      else Success(front.value + {parse(last).value})
  }

  /** The weekdays a day list's tokens denote, each read by `Integer.parseInt(day.trim())`. */
  function DayTokens(currency: string, tokens: seq<string>): Result<set<int>, SettlementError> {
    ParsedTokens(currency, tokens, TokenDay)
  }

  /**
   * A day list parses exactly when every token does; its set then holds the
   * value of every token and nothing else (duplicates collapse). Otherwise the
   * error names the currency and the first token that does not parse, untrimmed.
   */
  lemma {:induction false} ParsedTokensMeaning(currency: string, tokens: seq<string>, parse: string -> Option<int>)
    ensures ParsedTokens(currency, tokens, parse).Success? <==> forall i :: 0 <= i < |tokens| ==> parse(tokens[i]).Some?
    ensures ParsedTokens(currency, tokens, parse).Success? ==>
      forall n :: n in ParsedTokens(currency, tokens, parse).value <==> exists i :: 0 <= i < |tokens| && parse(tokens[i]) == Some(n)
    ensures ParsedTokens(currency, tokens, parse).Failure? ==>
      exists i :: FirstBadToken(tokens, parse, i) && ParsedTokens(currency, tokens, parse).error == UnparsableDay(currency, tokens[i])
    decreases |tokens|
  {
    if tokens != [] {
      var n := |tokens| - 1;
      var front := tokens[..n];
      ParsedTokensMeaning(currency, front, parse);
      assert forall i :: 0 <= i < n ==> front[i] == tokens[i];
      if ParsedTokens(currency, front, parse).Failure? {
        var i :| FirstBadToken(front, parse, i) && ParsedTokens(currency, front, parse).error == UnparsableDay(currency, front[i]);
        assert FirstBadToken(tokens, parse, i);
      } else if parse(tokens[n]).None? {
        assert FirstBadToken(tokens, parse, n);
      }
    }
  }

  /** Once a prefix of the tokens fails, the whole list fails with the same error. */
  lemma {:induction false} ParsedTokensPrefixFailure(currency: string, tokens: seq<string>, parse: string -> Option<int>, k: nat)
    requires k <= |tokens| && ParsedTokens(currency, tokens[..k], parse).Failure?
    ensures ParsedTokens(currency, tokens, parse) == ParsedTokens(currency, tokens[..k], parse)
    decreases |tokens| - k
  {
    if k < |tokens| {
      assert tokens[..k + 1][..k] == tokens[..k];
      ParsedTokensPrefixFailure(currency, tokens, parse, k + 1);
    } else {
      assert tokens[..k] == tokens;
    }
  }

  /** The day list of a property value: its `,`-separated tokens. */
  function SettlementDays(currency: string, daysString: string): Result<set<int>, SettlementError> {
    DayTokens(currency, Split(daysString, ","))
  }

  /** `parseSettlementDays`: splits on `,` and adds each parsed token to a set, stopping at the first bad one. */
  method ParseSettlementDays(currency: string, daysString: string) returns (r: Result<set<int>, SettlementError>)
    ensures r == SettlementDays(currency, daysString)
  {
    var days := Split(daysString, ",");
    var settlementDays: set<int> := {};
    for i := 0 to |days|
      invariant ParsedTokens(currency, days[..i], TokenDay) == Success(settlementDays)
    {
      assert days[..i + 1][..i] == days[..i];
      var day := TokenDay(days[i]);
      if day.None? {
        ParsedTokensPrefixFailure(currency, days, TokenDay, i + 1);
        return Failure(UnparsableDay(currency, days[i]));
      }
      settlementDays := settlementDays + {day.value};
    }
    assert days[..|days|] == days;
    return Success(settlementDays);
  }

  // ---------------------------------------------------------------------------
  // loadCurrencyDaySettlement
  // ---------------------------------------------------------------------------

  /** What a property key configures. */
  datatype KeyRole = CurrencyDays(currency: string) | DefaultDays | Ignored

  function RoleOf(key: string): KeyRole {
    if StartsWith(key, SettlementDaysPrefix) then CurrencyDays(RemoveAll(key, SettlementDaysKeyPrefix))
    else if key == DefaultKey then DefaultDays
    else Ignored
  }

  /** A key `currency.settlementDays.<c>` configures currency `c`. */
  lemma CurrencyKeyRole(c: string)
    requires !Contains(c, SettlementDaysKeyPrefix)
    ensures RoleOf(SettlementDaysKeyPrefix + c) == CurrencyDays(c)
  {
    var key := SettlementDaysKeyPrefix + c;
    assert key[..|SettlementDaysPrefix|] == SettlementDaysPrefix;
    RemoveLeading(SettlementDaysKeyPrefix, c);
  }

  /** The day list a configuring key's value denotes. */
  function EntryDays(role: KeyRole, value: string): Result<set<int>, SettlementError>
    requires !role.Ignored?
  {
    if role.CurrencyDays? then SettlementDays(role.currency, value) else SettlementDays(DefaultName, value)
  }

  /** One iteration of the loading loop. */
  function LoadEntry(table: RuleTable, key: string, value: string): Result<RuleTable, SettlementError> {
    var role := RoleOf(key);
    if role.Ignored? then Success(table)
    else
      var days := EntryDays(role, value);
      if days.Failure? then Failure(days.error)
      else if role.CurrencyDays? then
        Success(table.(currencyDaySettlement := table.currencyDaySettlement[role.currency := days.value]))
      else
        Success(table.(defaultDaySettlement := Some(days.value)))
  }

  /** The table that the properties, visited in order, produce; the first malformed entry aborts. */
  function LoadRules(properties: seq<(string, string)>): Result<RuleTable, SettlementError>
    decreases |properties|
  {
    if properties == [] then Success(EmptyTable)
    else
      var front := LoadRules(properties[..|properties| - 1]);
      if front.Failure? then front
      else
        var (key, value) := properties[|properties| - 1];
        LoadEntry(front.value, key, value)
  }

  /** Once a prefix of the properties fails to load, loading all of them fails with the same error. */
  lemma {:induction false} LoadRulesPrefixFailure(properties: seq<(string, string)>, k: nat)
    requires k <= |properties| && LoadRules(properties[..k]).Failure?
    ensures LoadRules(properties) == LoadRules(properties[..k])
    decreases |properties| - k
  {
    if k < |properties| {
      assert properties[..k + 1][..k] == properties[..k];
      LoadRulesPrefixFailure(properties, k + 1);
    } else {
      assert properties[..k] == properties;
    }
  }

  /** Loading one more entry of the properties loads it into the table of the entries before it. */
  lemma LoadPrefixStep(properties: seq<(string, string)>, i: nat)
    requires i < |properties| && LoadRules(properties[..i]).Success?
    ensures LoadRules(properties[..i + 1]) == LoadEntry(LoadRules(properties[..i]).value, properties[i].0, properties[i].1)
  {
    assert properties[..i + 1][..i] == properties[..i];
  }

  /**
   * `loadCurrencyDaySettlement`: walks the properties, putting each currency's
   * day set into the map and each default list into the default.
   */
  method LoadCurrencyDaySettlement(properties: seq<(string, string)>) returns (r: Result<RuleTable, SettlementError>)
    ensures r == LoadRules(properties)
  {
    var currencyDaySettlement: map<string, set<int>> := map[];
    var defaultDaySettlement: Option<set<int>> := None;
    for i := 0 to |properties|
      invariant LoadRules(properties[..i]) == Success(RuleTable(currencyDaySettlement, defaultDaySettlement))
    {
      LoadPrefixStep(properties, i);
      var (key, value) := properties[i];
      if StartsWith(key, SettlementDaysPrefix) {
        var currency := RemoveAll(key, SettlementDaysKeyPrefix);
        var settlementDays := ParseSettlementDays(currency, value);
        if settlementDays.Failure? {
          LoadRulesPrefixFailure(properties, i + 1);
          return Failure(settlementDays.error);
        }
        currencyDaySettlement := currencyDaySettlement[currency := settlementDays.value];
      } else if key == DefaultKey {
        var settlementDays := ParseSettlementDays(DefaultName, value);
        if settlementDays.Failure? {
          LoadRulesPrefixFailure(properties, i + 1);
          return Failure(settlementDays.error);
        }
        defaultDaySettlement := Some(settlementDays.value);
      }
    }
    assert properties[..|properties|] == properties;
    return Success(RuleTable(currencyDaySettlement, defaultDaySettlement));
  }

  /** Property `i` configures something and its day list does not parse. */
  ghost predicate Malformed(properties: seq<(string, string)>, i: int) {
    0 <= i < |properties| && !RoleOf(properties[i].0).Ignored?
    && EntryDays(RoleOf(properties[i].0), properties[i].1).Failure?
  }

  /**
   * Loading fails exactly when some configuring entry is malformed, and then
   * with the error of the first such entry; ignored keys never fail.
   */
  lemma {:induction false} LoadFailsIff(properties: seq<(string, string)>)
    ensures LoadRules(properties).Failure? <==> exists i :: Malformed(properties, i)
    ensures LoadRules(properties).Failure? ==>
      exists i :: Malformed(properties, i) && (forall j :: 0 <= j < i ==> !Malformed(properties, j))
                  && LoadRules(properties).error == EntryDays(RoleOf(properties[i].0), properties[i].1).error
    decreases |properties|
  {
    if properties != [] {
      var n := |properties| - 1;
      var front := properties[..n];
      LoadFailsIff(front);
      forall i | 0 <= i < n ensures Malformed(front, i) <==> Malformed(properties, i) {
        assert front[i] == properties[i];
      }
      if LoadRules(front).Success? {
        var table := LoadRules(front).value;
        assert LoadRules(properties) == LoadEntry(table, properties[n].0, properties[n].1);
        assert LoadRules(properties).Failure? <==> Malformed(properties, n);
      }
    }
  }

  /** Entry `i` configures `role` and no later entry does. */
  ghost predicate LastFor(properties: seq<(string, string)>, i: int, role: KeyRole) {
    0 <= i < |properties| && RoleOf(properties[i].0) == role
    && forall j :: i < j < |properties| ==> RoleOf(properties[j].0) != role
  }

  /** A table that loads was loaded from a front that loads, and then the last entry. */
  lemma LoadStep(properties: seq<(string, string)>)
    requires properties != [] && LoadRules(properties).Success?
    ensures var n := |properties| - 1;
      LoadRules(properties[..n]).Success?
      && LoadRules(properties) == LoadEntry(LoadRules(properties[..n]).value, properties[n].0, properties[n].1)
  {
  }

  /** Some key of the properties configures `role`. */
  ghost predicate Configures(properties: seq<(string, string)>, role: KeyRole) {
    exists i :: 0 <= i < |properties| && RoleOf(properties[i].0) == role
  }

  /** Some key configures `role` when one before the last does, or the last does. */
  lemma ConfiguresStep(properties: seq<(string, string)>, role: KeyRole)
    requires properties != []
    ensures var n := |properties| - 1;
      Configures(properties, role) <==> Configures(properties[..n], role) || RoleOf(properties[n].0) == role
  {
    var n := |properties| - 1;
    if Configures(properties, role) && RoleOf(properties[n].0) != role {
      var i :| 0 <= i < |properties| && RoleOf(properties[i].0) == role;
      assert properties[..n][i] == properties[i];
    }
    if Configures(properties[..n], role) {
      var i :| 0 <= i < n && RoleOf(properties[..n][i].0) == role;
      assert properties[..n][i] == properties[i];
    }
  }

  /** When the last key configures `role`, it is the last key that does. */
  lemma LastForLast(properties: seq<(string, string)>, role: KeyRole)
    requires properties != [] && RoleOf(properties[|properties| - 1].0) == role
    ensures forall i :: LastFor(properties, i, role) ==> i == |properties| - 1
  {
  }

  /** When the last key does not configure `role`, the last key that does is already the last in the front. */
  lemma LastForFront(properties: seq<(string, string)>, role: KeyRole, i: int)
    requires properties != [] && RoleOf(properties[|properties| - 1].0) != role
    requires LastFor(properties, i, role)
    ensures var front := properties[..|properties| - 1];
      LastFor(front, i, role) && front[i] == properties[i]
  {
  }

  /**
   * A loaded table knows exactly the currencies some key configures, each with
   * the day set of the last key that configures it (later keys override).
   */
  lemma {:induction false} LoadedCurrency(properties: seq<(string, string)>, c: string)
    requires LoadRules(properties).Success?
    ensures c in LoadRules(properties).value.currencyDaySettlement
            <==> Configures(properties, CurrencyDays(c))
    ensures forall i :: LastFor(properties, i, CurrencyDays(c)) ==>
      SettlementDays(c, properties[i].1).Success? && c in LoadRules(properties).value.currencyDaySettlement
      && LoadRules(properties).value.currencyDaySettlement[c] == SettlementDays(c, properties[i].1).value
    decreases |properties|
  {
    if properties != [] {
      var n := |properties| - 1;
      var front := properties[..n];
      CurrencyStep(properties, c);
      LoadedCurrency(front, c);
      ConfiguresStep(properties, CurrencyDays(c));
      if RoleOf(properties[n].0) == CurrencyDays(c) {
        CurrencySetByLast(properties, c, LoadRules(properties).value.currencyDaySettlement);
      } else {
        CurrencyKept(properties, c, LoadRules(front).value.currencyDaySettlement, LoadRules(properties).value.currencyDaySettlement);
      }
    }
  }

  /** The last of the properties sets currency `c` if it configures `c`, and leaves it as the front loaded it otherwise. */
  lemma CurrencyStep(properties: seq<(string, string)>, c: string)
    requires properties != [] && LoadRules(properties).Success?
    ensures var n := |properties| - 1;
      LoadRules(properties[..n]).Success?
      && var before := LoadRules(properties[..n]).value.currencyDaySettlement;
      var after := LoadRules(properties).value.currencyDaySettlement;
      if RoleOf(properties[n].0) == CurrencyDays(c) then
        SettlementDays(c, properties[n].1).Success? && c in after && after[c] == SettlementDays(c, properties[n].1).value
      else
        (c in after <==> c in before) && (c in after ==> after[c] == before[c])
  {
    var n := |properties| - 1;
    LoadStep(properties);
    EntryCurrency(LoadRules(properties[..n]).value, properties[n].0, properties[n].1, c);
  }

  /** Days for `c` that the last key sets are those of the last key configuring `c`. */
  lemma CurrencySetByLast(properties: seq<(string, string)>, c: string, after: map<string, set<int>>)
    requires properties != [] && RoleOf(properties[|properties| - 1].0) == CurrencyDays(c)
    requires var value := properties[|properties| - 1].1;
      SettlementDays(c, value).Success? && c in after && after[c] == SettlementDays(c, value).value
    ensures forall i :: LastFor(properties, i, CurrencyDays(c)) ==>
      SettlementDays(c, properties[i].1).Success? && c in after && after[c] == SettlementDays(c, properties[i].1).value
  {
    LastForLast(properties, CurrencyDays(c));
  }

  /** Days for `c` that the last key leaves alone are still those of the last key of the front configuring `c`. */
  lemma CurrencyKept(properties: seq<(string, string)>, c: string, before: map<string, set<int>>, after: map<string, set<int>>)
    requires properties != [] && RoleOf(properties[|properties| - 1].0) != CurrencyDays(c)
    requires (c in after <==> c in before) && (c in after ==> after[c] == before[c])
    requires var front := properties[..|properties| - 1];
      forall i :: LastFor(front, i, CurrencyDays(c)) ==>
        SettlementDays(c, front[i].1).Success? && c in before && before[c] == SettlementDays(c, front[i].1).value
    ensures forall i :: LastFor(properties, i, CurrencyDays(c)) ==>
      SettlementDays(c, properties[i].1).Success? && c in after && after[c] == SettlementDays(c, properties[i].1).value
  {
    forall i | LastFor(properties, i, CurrencyDays(c))
      ensures SettlementDays(c, properties[i].1).Success? && c in after && after[c] == SettlementDays(c, properties[i].1).value
    {
      LastForFront(properties, CurrencyDays(c), i);
    }
  }

  /** One loaded entry sets currency `c` if it configures `c`, and leaves it as it was otherwise. */
  lemma EntryCurrency(table: RuleTable, key: string, value: string, c: string)
    requires LoadEntry(table, key, value).Success?
    ensures var after := LoadEntry(table, key, value).value.currencyDaySettlement;
      if RoleOf(key) == CurrencyDays(c) then
        SettlementDays(c, value).Success? && c in after && after[c] == SettlementDays(c, value).value
      else
        (c in after <==> c in table.currencyDaySettlement)
        && (c in after ==> after[c] == table.currencyDaySettlement[c])
  {
  }

  /**
   * A loaded table has a default exactly when some key is `currency.default`,
   * and it is the day set of the last such key.
   */
  lemma {:induction false} LoadedDefault(properties: seq<(string, string)>)
    requires LoadRules(properties).Success?
    ensures LoadRules(properties).value.defaultDaySettlement.Some?
            <==> Configures(properties, DefaultDays)
    ensures forall i :: LastFor(properties, i, DefaultDays) ==>
      SettlementDays(DefaultName, properties[i].1).Success?
      && LoadRules(properties).value.defaultDaySettlement == Some(SettlementDays(DefaultName, properties[i].1).value)
    decreases |properties|
  {
    if properties != [] {
      var n := |properties| - 1;
      var front := properties[..n];
      DefaultStep(properties);
      LoadedDefault(front);
      ConfiguresStep(properties, DefaultDays);
      if RoleOf(properties[n].0) == DefaultDays {
        DefaultSetByLast(properties, LoadRules(properties).value.defaultDaySettlement);
      } else {
        DefaultKept(properties, LoadRules(front).value.defaultDaySettlement, LoadRules(properties).value.defaultDaySettlement);
      }
    }
  }

  /** A default that the last key sets is the one the last `currency.default` key set. */
  lemma DefaultSetByLast(properties: seq<(string, string)>, after: Option<set<int>>)
    requires properties != [] && RoleOf(properties[|properties| - 1].0) == DefaultDays
    requires var value := properties[|properties| - 1].1;
      SettlementDays(DefaultName, value).Success? && after == Some(SettlementDays(DefaultName, value).value)
    ensures forall i :: LastFor(properties, i, DefaultDays) ==>
      SettlementDays(DefaultName, properties[i].1).Success? && after == Some(SettlementDays(DefaultName, properties[i].1).value)
  {
    LastForLast(properties, DefaultDays);
  }

  /** A default that the last key leaves alone is still the one the last `currency.default` key of the front set. */
  lemma DefaultKept(properties: seq<(string, string)>, before: Option<set<int>>, after: Option<set<int>>)
    requires properties != [] && RoleOf(properties[|properties| - 1].0) != DefaultDays && after == before
    requires var front := properties[..|properties| - 1];
      forall i :: LastFor(front, i, DefaultDays) ==>
        SettlementDays(DefaultName, front[i].1).Success? && before == Some(SettlementDays(DefaultName, front[i].1).value)
    ensures forall i :: LastFor(properties, i, DefaultDays) ==>
      SettlementDays(DefaultName, properties[i].1).Success? && after == Some(SettlementDays(DefaultName, properties[i].1).value)
  {
    forall i | LastFor(properties, i, DefaultDays)
      ensures SettlementDays(DefaultName, properties[i].1).Success? && after == Some(SettlementDays(DefaultName, properties[i].1).value)
    {
      LastForFront(properties, DefaultDays, i);
    }
  }

  /** The last of the properties sets the default if its key is `currency.default`, and leaves it as the front loaded it otherwise. */
  lemma DefaultStep(properties: seq<(string, string)>)
    requires properties != [] && LoadRules(properties).Success?
    ensures var n := |properties| - 1;
      LoadRules(properties[..n]).Success?
      && var after := LoadRules(properties).value.defaultDaySettlement;
      if RoleOf(properties[n].0) == DefaultDays then
        SettlementDays(DefaultName, properties[n].1).Success? && after == Some(SettlementDays(DefaultName, properties[n].1).value)
      else after == LoadRules(properties[..n]).value.defaultDaySettlement
  {
    var n := |properties| - 1;
    LoadStep(properties);
    EntryDefault(LoadRules(properties[..n]).value, properties[n].0, properties[n].1);
  }

  /** One loaded entry sets the default if its key is `currency.default`, and leaves it as it was otherwise. */
  lemma EntryDefault(table: RuleTable, key: string, value: string)
    requires LoadEntry(table, key, value).Success?
    ensures var after := LoadEntry(table, key, value).value.defaultDaySettlement;
      if RoleOf(key) == DefaultDays then
        SettlementDays(DefaultName, value).Success? && after == Some(SettlementDays(DefaultName, value).value)
      else after == table.defaultDaySettlement
  {
  }

  // ---------------------------------------------------------------------------
  // dateSettled
  // ---------------------------------------------------------------------------

  /** The currency's own days if it has an entry, else the default days, else none at all. */
  function AllowedDays(table: RuleTable, currency: string): Option<set<int>> {
    if currency in table.currencyDaySettlement then Some(table.currencyDaySettlement[currency])
    else table.defaultDaySettlement
  }

  predicate Settles(days: set<int>, d: Day) {
    DayOfWeek(d) in days
  }

  /** The first day from `date + i` up to `date + 6` whose weekday is allowed. */
  function FirstAllowed(days: set<int>, date: Day, i: nat): (r: Option<Day>)
    requires i <= 7
    ensures r.Some? ==> date + i <= r.value <= date + 6 && Settles(days, r.value)
                        && forall d :: date + i <= d < r.value ==> !Settles(days, d)
    ensures r.None? ==> forall d :: date + i <= d <= date + 6 ==> !Settles(days, d)
    decreases 7 - i
  {
    if i == 7 then None
    else if Settles(days, date + i) then Some(date + i)
    else FirstAllowed(days, date, i + 1)
  }

  /**
   * The settlement date of a request: with no days configured for the currency
   * it is a configuration error; otherwise it is the earliest day of the week
   * that starts on the requested date whose weekday is allowed, and when there
   * is none the request fails.
   */
  function Resolve(table: RuleTable, date: Day, currency: string): (r: Result<Day, SettlementError>)
    ensures AllowedDays(table, currency).None? <==> r == Failure(UnknownCurrency(currency))
    ensures r.Success? ==> var days := AllowedDays(table, currency).value;
      date <= r.value <= date + 6 && Settles(days, r.value)
      && forall d :: date <= d < r.value ==> !Settles(days, d)
    ensures r.Failure? && AllowedDays(table, currency).Some? ==>
      r == Failure(NoValidSettlementDay(currency))
      && forall d :: date <= d <= date + 6 ==> !Settles(AllowedDays(table, currency).value, d)
  {
    var days := AllowedDays(table, currency);
    if days.None? then Failure(UnknownCurrency(currency))
    else
      var first := FirstAllowed(days.value, date, 0);
      if first.None? then Failure(NoValidSettlementDay(currency)) else Success(first.value)
  }

  /**
   * `dateSettled`: looks the currency up, falls back on the default, then
   * walks a calendar forward at most seven times.
   */
  method DateSettled(table: RuleTable, date: Day, currency: string) returns (r: Result<Day, SettlementError>)
    ensures r == Resolve(table, date, currency)
  {
    var settlementDays: set<int>;
    if currency in table.currencyDaySettlement {
      settlementDays := table.currencyDaySettlement[currency];
    } else if table.defaultDaySettlement.None? {
      return Failure(UnknownCurrency(currency));
    } else {
      settlementDays := table.defaultDaySettlement.value;
    }
    var calendar := date;
    for i := 0 to 7
      invariant calendar == date + i
      invariant FirstAllowed(settlementDays, date, i) == FirstAllowed(settlementDays, date, 0)
    {
      if DayOfWeek(calendar) in settlementDays {
        return Success(calendar);
      }
      calendar := calendar + 1;
    }
    return Failure(NoValidSettlementDay(currency));
  }

  /** A requested date whose weekday is allowed settles on that very date, and only then. */
  lemma ResolveSameDay(table: RuleTable, date: Day, currency: string)
    requires AllowedDays(table, currency).Some?
    ensures Resolve(table, date, currency) == Success(date) <==> Settles(AllowedDays(table, currency).value, date)
  {
  }

  /**
   * With days configured, resolution fails exactly when none of them is a
   * weekday number 1..7 (for instance a set holding only 0).
   */
  lemma ResolveFailsIff(table: RuleTable, date: Day, currency: string)
    requires AllowedDays(table, currency).Some?
    ensures Resolve(table, date, currency).Failure?
            <==> forall w :: Sunday <= w <= Saturday ==> w !in AllowedDays(table, currency).value
  {
    var days := AllowedDays(table, currency).value;
    if Resolve(table, date, currency).Failure? {
      forall w | Sunday <= w <= Saturday ensures w !in days {
        WeekCovers(date, w);
      }
    }
  }

  /** Resolving an already resolved date again leaves it unchanged. */
  lemma ResolveIdempotent(table: RuleTable, date: Day, currency: string)
    requires Resolve(table, date, currency).Success?
    ensures Resolve(table, Resolve(table, date, currency).value, currency) == Resolve(table, date, currency)
  {
    var d := Resolve(table, date, currency).value;
    assert FirstAllowed(AllowedDays(table, currency).value, d, 0) == Some(d);
  }
}
