/** Registration, login and the per-user strategy list. The console prompts
    are gone: what the user would type arrives as parameters. */
module Users {
  import opened Structures

  /** Some user in `users` has this name. */
  predicate NameTaken(users: seq<User>, username: string)
  {
    exists i :: 0 <= i < |users| && users[i].username == username
  }

  /** No two users share a name. */
  predicate UniqueNames(users: seq<User>)
  {
    forall i, j :: 0 <= i < j < |users| ==> users[i].username != users[j].username
  }

  /** The `users[]` table with its `user_count`. */
  class UserTable {
    const users: array<User>
    var count: nat

    /** The table fits its array and no two registered users share a name. */
    ghost predicate Valid()
      reads this, users
    {
      users.Length == MAX_USERS && count <= MAX_USERS && UniqueNames(users[..count])
    }

    /** The registered users, `users[0..user_count-1]`. */
    function Contents(): seq<User>
      reads this, users
      requires Valid()
    {
      users[..count]
    }

    constructor ()
      ensures Valid() && Contents() == [] && fresh(users)
    {
      users := new User[MAX_USERS](_ => User("", "", []));
      count := 0;
    }

    /** `register_user`: a name already in the table changes nothing; a new
        name is appended with no strategies. The source writes the new entry
        without comparing the count with MAX_USERS, so a new name needs a
        free slot. */
    method Register(username: string, password: string) returns (registered: bool)
      requires Valid() && (count < MAX_USERS || NameTaken(Contents(), username))
      modifies this, users
      ensures Valid()
      ensures registered == !NameTaken(old(Contents()), username)
      ensures Contents() == if registered then old(Contents()) + [User(username, password, [])]
                            else old(Contents())
    {
      var i := 0;
      while i < count
        invariant 0 <= i <= count
        invariant forall k :: 0 <= k < i ==> users[k].username != username
      {
        if users[i].username == username {
          assert Contents()[i].username == username;
          return false;
        }
        i := i + 1;
      }
      assert !NameTaken(Contents(), username) by {
        forall k | 0 <= k < count ensures Contents()[k].username != username {
          assert Contents()[k] == users[k];
        }
      }
      ghost var before := Contents();
      RegistrationKeepsNamesUnique(before, username, password);
      users[count] := User(username, password, []);
      count := count + 1;
      assert users[..count] == before + [User(username, password, [])];
      registered := true;
    }
  }

  /** Registration keeps the names unique: the table only grows by a name it
      did not hold. */
  lemma RegistrationKeepsNamesUnique(users: seq<User>, username: string, password: string)
    requires UniqueNames(users) && !NameTaken(users, username)
    ensures UniqueNames(users + [User(username, password, [])])
  {
    var t := users + [User(username, password, [])];
    forall i, j | 0 <= i < j < |t| ensures t[i].username != t[j].username {
      if j == |users| {
        assert t[i] == users[i];
      } else {
        assert t[i] == users[i] && t[j] == users[j];
      }
    }
  }

  /** Both the name and the password of `u` are the ones typed. */
  predicate Matches(u: User, username: string, password: string)
  {
    u.username == username && u.password == password
  }

  /** `login`: the index of the first user with this name and password, or -1. */
  method Login(users: seq<User>, username: string, password: string) returns (index: int)
    ensures -1 <= index < |users|
    ensures index == -1 <==> forall i :: 0 <= i < |users| ==> !Matches(users[i], username, password)
    ensures index >= 0 ==> Matches(users[index], username, password)
                           && forall i :: 0 <= i < index ==> !Matches(users[i], username, password)
  {
    var i := 0;
    while i < |users|
      invariant 0 <= i <= |users|
      invariant forall k :: 0 <= k < i ==> !Matches(users[k], username, password)
    {
      if users[i].username == username && users[i].password == password {
        return i;
      }
      i := i + 1;
    }
    return -1;
  }

  /** With unique names the first match is the only one: login picks the
      user by name. */
  lemma LoginByName(users: seq<User>, username: string, password: string, i: int, j: int)
    requires UniqueNames(users) && 0 <= i < |users| && 0 <= j < |users|
    requires Matches(users[i], username, password) && users[j].username == username
    ensures i == j
  {
  }

  // ---------------------------------------------------------------- strategy list

  /** What `edit_strategy` reads for one strategy: an empty name keeps the old
      name, and a number that could not be read (`None`) keeps the old value. */
  datatype StrategyEdit = StrategyEdit(name: string, rsiOversold: Option<real>,
                                       rsiOverbought: Option<real>, smaShortPeriod: Option<int>,
                                       smaLongPeriod: Option<int>, stopLossPct: Option<real>,
                                       takeProfitPct: Option<real>, maxHoldingDays: Option<int>)

  function Pick<T>(edit: Option<T>, current: T): T
  {
    if edit.Some? then edit.value else current
  }

  /** The strategy after an edit. */
  function ApplyEdit(st: Strategy, e: StrategyEdit): (r: Strategy)
    ensures r.name == if |e.name| > 0 then e.name else st.name
    ensures e.rsiOversold.None? ==> r.rsiOversold == st.rsiOversold
    ensures e.rsiOversold.Some? ==> r.rsiOversold == e.rsiOversold.value
    ensures e.rsiOverbought.None? ==> r.rsiOverbought == st.rsiOverbought
    ensures e.rsiOverbought.Some? ==> r.rsiOverbought == e.rsiOverbought.value
    ensures e.smaShortPeriod.None? ==> r.smaShortPeriod == st.smaShortPeriod
    ensures e.smaShortPeriod.Some? ==> r.smaShortPeriod == e.smaShortPeriod.value
    ensures e.smaLongPeriod.None? ==> r.smaLongPeriod == st.smaLongPeriod
    ensures e.smaLongPeriod.Some? ==> r.smaLongPeriod == e.smaLongPeriod.value
    ensures e.stopLossPct.None? ==> r.stopLossPct == st.stopLossPct
    ensures e.stopLossPct.Some? ==> r.stopLossPct == e.stopLossPct.value
    ensures e.takeProfitPct.None? ==> r.takeProfitPct == st.takeProfitPct
    ensures e.takeProfitPct.Some? ==> r.takeProfitPct == e.takeProfitPct.value
    ensures e.maxHoldingDays.None? ==> r.maxHoldingDays == st.maxHoldingDays
    ensures e.maxHoldingDays.Some? ==> r.maxHoldingDays == e.maxHoldingDays.value
  {
    Strategy(if |e.name| > 0 then e.name else st.name,
             Pick(e.rsiOversold, st.rsiOversold), Pick(e.rsiOverbought, st.rsiOverbought),
             Pick(e.smaShortPeriod, st.smaShortPeriod), Pick(e.smaLongPeriod, st.smaLongPeriod),
             Pick(e.stopLossPct, st.stopLossPct), Pick(e.takeProfitPct, st.takeProfitPct),
             Pick(e.maxHoldingDays, st.maxHoldingDays))
  }

  /** An edit whose every answer was left out keeps the strategy; one that
      answers every field replaces all of it. */
  lemma EditKeepsWhatWasNotGiven(st: Strategy, e: StrategyEdit)
    ensures e == StrategyEdit("", None, None, None, None, None, None, None) ==> ApplyEdit(st, e) == st
    ensures |e.name| > 0 && e.rsiOversold.Some? && e.rsiOverbought.Some? && e.smaShortPeriod.Some?
            && e.smaLongPeriod.Some? && e.stopLossPct.Some? && e.takeProfitPct.Some? && e.maxHoldingDays.Some?
            ==> ApplyEdit(st, e) == Strategy(e.name, e.rsiOversold.value, e.rsiOverbought.value,
                                             e.smaShortPeriod.value, e.smaLongPeriod.value, e.stopLossPct.value,
                                             e.takeProfitPct.value, e.maxHoldingDays.value)
  {
  }

  /** A user's `custom_strategies[]` with its `strategy_count`. */
  class StrategyList {
    const strategies: array<Strategy>
    var count: nat

    ghost predicate Valid()
      reads this
    {
      strategies.Length == MAX_STRATEGIES_PER_USER && count <= MAX_STRATEGIES_PER_USER
    }

    /** The saved strategies, in order. */
    function Contents(): seq<Strategy>
      reads this, strategies
      requires Valid()
    {
      strategies[..count]
    }

    constructor ()
      ensures Valid() && Contents() == [] && fresh(strategies)
    {
      strategies := new Strategy[MAX_STRATEGIES_PER_USER](_ => Strategy("", 0.0, 0.0, 0, 0, 0.0, 0.0, 0));
      count := 0;
    }

    /** `create_new_strategy`: a full list is left alone; otherwise the new
        strategy goes in after the others. */
    method CreateNewStrategy(st: Strategy) returns (created: bool)
      requires Valid()
      modifies this, strategies
      ensures Valid()
      ensures created == (old(count) < MAX_STRATEGIES_PER_USER)
      ensures Contents() == if created then old(Contents()) + [st] else old(Contents())
    {
      if count >= MAX_STRATEGIES_PER_USER {
        return false;
      }
      strategies[count] := st;
      count := count + 1;
      created := true;
    }

    /** `edit_strategy`: an empty list or a choice outside 1..count changes
        nothing; otherwise strategy `choice` takes the edit. */
    method EditStrategy(choice: int, edit: StrategyEdit) returns (edited: bool)
      requires Valid()
      modifies strategies
      ensures Valid() && count == old(count)
      ensures edited == (1 <= choice <= old(count))
      ensures Contents() == if edited then old(Contents())[choice - 1 := ApplyEdit(old(Contents())[choice - 1], edit)]
                            else old(Contents())
    {
      if count == 0 {
        return false;
      }
      if choice < 1 || choice > count {
        return false;
      }
      strategies[choice - 1] := ApplyEdit(strategies[choice - 1], edit);
      edited := true;
    }

    /** `delete_strategy`: with a valid choice confirmed by 'y' or 'Y', the
        chosen strategy is removed and the later ones move down one place;
        otherwise nothing changes. */
    method DeleteStrategy(choice: int, confirm: char) returns (deleted: bool)
      requires Valid()
      modifies this, strategies
      ensures Valid()
      ensures deleted == (1 <= choice <= old(count) && (confirm == 'y' || confirm == 'Y'))
      ensures Contents() == if deleted then old(Contents())[..choice - 1] + old(Contents())[choice..]
                            else old(Contents())
    {
      if count == 0 {
        return false;
      }
      if choice < 1 || choice > count {
        return false;
      }
      if confirm != 'y' && confirm != 'Y' {
        return false;
      }
      ghost var before := Contents();
      var i := choice - 1;
      while i < count - 1
        invariant choice - 1 <= i <= count - 1 && count == |before| && Valid()
        invariant forall k :: 0 <= k < choice - 1 ==> strategies[k] == before[k]
        invariant forall k :: choice - 1 <= k < i ==> strategies[k] == before[k + 1]
        invariant forall k :: i <= k < count ==> strategies[k] == before[k]
      {
        strategies[i] := strategies[i + 1];
        i := i + 1;
      }
      count := count - 1;
      deleted := true;
      assert Contents() == before[..choice - 1] + before[choice..];
    }
  }

  /** Removing entry `choice` keeps the entries before it, moves the ones
      after it down one place and shortens the list by one. */
  lemma RemovalShiftsDown(s: seq<Strategy>, choice: int)
    requires 1 <= choice <= |s|
    ensures var r := s[..choice - 1] + s[choice..];
            |r| == |s| - 1
            && (forall k :: 0 <= k < choice - 1 ==> r[k] == s[k])
            && (forall k :: choice - 1 <= k < |r| ==> r[k] == s[k + 1])
  {
  }

  /** `select_user_strategy`: strategy `choice` for 1 <= choice <= count,
      otherwise a strategy whose short SMA period is the preset flag -1. The
      source leaves the flag strategy's other fields unset; here they are
      zero. */
  function SelectUserStrategy(strategies: seq<Strategy>, choice: int): (st: Strategy)
    ensures 1 <= choice <= |strategies| ==> st == strategies[choice - 1]
    ensures !(1 <= choice <= |strategies|) ==> st.smaShortPeriod == -1
  {
    if 0 < choice <= |strategies| then strategies[choice - 1]
    else Strategy("", 0.0, 0.0, -1, 0, 0.0, 0.0, 0)
  }

  /** The flag means "use a preset" exactly when the choice is out of range,
      provided no saved strategy itself has a short period of -1. */
  lemma PresetFlagIffNoChoice(strategies: seq<Strategy>, choice: int)
    requires forall i :: 0 <= i < |strategies| ==> strategies[i].smaShortPeriod != -1
    ensures SelectUserStrategy(strategies, choice).smaShortPeriod == -1 <==> !(1 <= choice <= |strategies|)
    ensures 1 <= choice <= |strategies| ==> SelectUserStrategy(strategies, choice) == strategies[choice - 1]
  {
  }

  /** A saved strategy with a short period of -1 is indistinguishable from the
      preset flag. */
  lemma SavedFlagLooksLikePreset(strategies: seq<Strategy>, choice: int)
    requires 1 <= choice <= |strategies| && strategies[choice - 1].smaShortPeriod == -1
    ensures SelectUserStrategy(strategies, choice).smaShortPeriod == SelectUserStrategy(strategies, 0).smaShortPeriod
  {
  }
}
