/**
 * Per-user run criteria (`DEFAULT_CRITERIA`, `user_data`, `get_user_criteria`,
 * `update_user_criteria`) and the two button steps that change them:
 * `adjust_max`, which cycles the contact limit 50 -> 100 -> 150 -> 200 -> 50,
 * and `toggle_bots`, which flips bot exclusion.
 */
module Criteria {

  /** One user's settings: the contact limit per group, the priority filter and bot exclusion. */
  datatype Criteria = Criteria(maxContacts: int, priority: string, excludeBots: bool)

  /** `DEFAULT_CRITERIA`. */
  const DefaultCriteria := Criteria(100, "any", false)

  /** The keys of the criteria record. */
  datatype Key = MaxContactsKey | PriorityKey | ExcludeBotsKey

  /** The values a key can hold. */
  datatype Value = IntValue(i: int) | TextValue(t: string) | BoolValue(b: bool)

  /** `update_user_criteria`'s `(key, value)` pair; each key carries a value of its own type. */
  datatype Setting = MaxContacts(n: int) | Priority(p: string) | ExcludeBots(b: bool)

  function KeyOf(s: Setting): Key {
    match s
    case MaxContacts(_) => MaxContactsKey
    case Priority(_) => PriorityKey
    case ExcludeBots(_) => ExcludeBotsKey
  }

  function ValueOf(s: Setting): Value {
    match s
    case MaxContacts(n) => IntValue(n)
    case Priority(p) => TextValue(p)
    case ExcludeBots(b) => BoolValue(b)
  }

  /** `criteria[key]`. */
  function Get(c: Criteria, k: Key): Value {
    match k
    case MaxContactsKey => IntValue(c.maxContacts)
    case PriorityKey => TextValue(c.priority)
    case ExcludeBotsKey => BoolValue(c.excludeBots)
  }

  /** `criteria[key] = value`: the given key reads back the new value, every other key is untouched. */
  function Apply(c: Criteria, s: Setting): (r: Criteria)
    ensures Get(r, KeyOf(s)) == ValueOf(s)
    ensures forall k :: k != KeyOf(s) ==> Get(r, k) == Get(c, k)
  {
    match s
    case MaxContacts(n) => c.(maxContacts := n)
    case Priority(p) => c.(priority := p)
    case ExcludeBots(b) => c.(excludeBots := b)
  }

  /** What `get_user_criteria(user)` leaves in `user_data`: a copy of the defaults is added only for a new user. */
  function Touch(m: map<int, Criteria>, user: int): (r: map<int, Criteria>)
    ensures r.Keys == m.Keys + {user}
    ensures forall u :: u in m ==> r[u] == m[u]
    ensures user !in m ==> r[user] == DefaultCriteria
  {
    if user in m then m else m[user := DefaultCriteria]
  }

  /** What `update_user_criteria(user, key, value)` leaves in `user_data`: one key of one user changes. */
  function Update(m: map<int, Criteria>, user: int, s: Setting): (r: map<int, Criteria>)
    ensures r.Keys == m.Keys + {user}
    ensures forall u :: u in m && u != user ==> r[u] == m[u]
    ensures Get(r[user], KeyOf(s)) == ValueOf(s)
    ensures forall k :: k != KeyOf(s) ==> Get(r[user], k) == Get(Touch(m, user)[user], k)
  {
    var t := Touch(m, user);
    t[user := Apply(t[user], s)]
  }

  /** Lower end of the contact-limit cycle, where `adjust_max` wraps to. */
  const MaxFloor := 50
  /** The step `adjust_max` adds. */
  const MaxStep := 50
  /** Values at or above this wrap to `MaxFloor`. */
  const MaxCeiling := 200

  /** The `adjust_max` step: wrap-around, not clamping. */
  function NextMax(v: int): (r: int)
    ensures r == MaxFloor || r == v + MaxStep
    ensures OnCycle(v) ==> OnCycle(r)
  {
    if v >= MaxCeiling then MaxFloor else v + MaxStep
  }

  /** The values the contact limit takes when it starts from the default. */
  predicate OnCycle(v: int) {
    v == 50 || v == 100 || v == 150 || v == 200
  }

  /** The contact limit after `n` presses of the adjust button, starting from `v`. */
  function AdjustTimes(v: int, n: nat): int {
    if n == 0 then v else NextMax(AdjustTimes(v, n - 1))
  }

  /** Each step keeps the limit on the cycle and moves it to the next value, wrapping 200 back to 50. */
  lemma NextMaxOnCycle(v: int)
    requires OnCycle(v)
    ensures OnCycle(NextMax(v))
    ensures NextMax(v) == (if v == 200 then 50 else v + 50)
  {
  }

  /** From the default 100, `n` presses give 50 * (1 + (n + 1) mod 4): always one of 50, 100, 150, 200. */
  lemma {:induction false} AdjustFromDefault(n: nat)
    ensures AdjustTimes(DefaultCriteria.maxContacts, n) == 50 * (1 + (n + 1) % 4)
    ensures OnCycle(AdjustTimes(DefaultCriteria.maxContacts, n))
  {
    if n > 0 {
      AdjustFromDefault(n - 1);
    }
  }

  /** Pressing the adjust button four times from any value on the cycle gives that value back. */
  lemma {:induction false} AdjustPeriod(v: int, n: nat)
    requires OnCycle(v)
    ensures AdjustTimes(v, n + 4) == AdjustTimes(v, n)
  {
    if n == 0 {
      assert AdjustTimes(v, 4) == NextMax(NextMax(NextMax(NextMax(v))));
    } else {
      AdjustPeriod(v, n - 1);
    }
  }

  /** `toggle_bots` twice restores the original record. */
  lemma ToggleTwice(c: Criteria)
    ensures var once := Apply(c, ExcludeBots(!c.excludeBots));
            Apply(once, ExcludeBots(!once.excludeBots)) == c
  {
  }

  /** `user_data`: the process-wide store of per-user criteria. */
  class CriteriaStore {
    var userData: map<int, Criteria>

    /** Every stored contact limit is on the 50..200 cycle. */
    ghost predicate LimitsOnCycle()
      reads this
    {
      forall u :: u in userData ==> OnCycle(userData[u].maxContacts)
    }

    constructor ()
      ensures userData == map[]
      ensures LimitsOnCycle()
    {
      userData := map[];
    }

    /** `get_user_criteria`. */
    method GetUserCriteria(user: int) returns (c: Criteria)
      modifies this
      ensures userData == Touch(old(userData), user)
      ensures c == userData[user]
      ensures old(LimitsOnCycle()) ==> LimitsOnCycle()
    {
      if user !in userData {
        userData := userData[user := DefaultCriteria];
      }
      c := userData[user];
    }

    /** `update_user_criteria`. */
    method UpdateUserCriteria(user: int, s: Setting)
      modifies this
      ensures userData == Update(old(userData), user, s)
    {
      if user !in userData {
        userData := userData[user := DefaultCriteria];
      }
      userData := userData[user := Apply(userData[user], s)];
    }

    /** The `adjust_max` button. */
    method AdjustMax(user: int)
      modifies this
      ensures var before := Touch(old(userData), user)[user];
              userData == Update(old(userData), user, MaxContacts(NextMax(before.maxContacts)))
      ensures old(LimitsOnCycle()) ==> LimitsOnCycle()
    {
      var c := GetUserCriteria(user);
      var newValue := if c.maxContacts >= 200 then 50 else c.maxContacts + 50;
      UpdateUserCriteria(user, MaxContacts(newValue));
    }

    /** The `toggle_bots` button. */
    method ToggleBots(user: int)
      modifies this
      ensures var before := Touch(old(userData), user)[user];
              userData == Update(old(userData), user, ExcludeBots(!before.excludeBots))
      ensures old(LimitsOnCycle()) ==> LimitsOnCycle()
    {
      var c := GetUserCriteria(user);
      UpdateUserCriteria(user, ExcludeBots(!c.excludeBots));
    }
  }
}
