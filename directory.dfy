/** The target-user filter: the roster reduced to the ids of the users
    whose `real_name` is one of the target names (slack_bot.py:30). */
module Directory {
  import opened Basics
  import opened Slack
  import opened OrderedDict

  /** A roster entry is kept when its name equals a target name exactly;
      an entry without a name is never kept. */
  predicate IsTarget(u: User) {
    u.realName.Some? && u.realName.value in TargetUsers
  }

  /** `target_user_ids`: the dict comprehension over the roster, in roster
      order, so a later entry with the same id overwrites the value and
      keeps the position of the first. */
  function TargetUserIds(users: seq<User>): Dict<string, string> {
    if users == [] then []
    else
      var d := TargetUserIds(users[..|users| - 1]);
      var u := users[|users| - 1];
      if IsTarget(u) then Put(d, u.id, u.realName.value) else d
  }

  /** Each id appears once. */
  lemma {:induction false} TargetUserIdsValid(users: seq<User>)
    ensures Valid(TargetUserIds(users))
  {
    if users != [] {
      var u := users[|users| - 1];
      TargetUserIdsValid(users[..|users| - 1]);
      if IsTarget(u) {
        PutValid(TargetUserIds(users[..|users| - 1]), u.id, u.realName.value);
      }
    }
  }

  /** The ids kept are exactly the ids of the roster entries whose name is a
      target name. */
  lemma {:induction false} TargetUserIdsKeys(users: seq<User>, k: string)
    ensures k in Keys(TargetUserIds(users))
        <==> exists i :: 0 <= i < |users| && users[i].id == k && IsTarget(users[i])
  {
    if users != [] {
      var n := |users| - 1;
      var pre, u := users[..n], users[n];
      var d := TargetUserIds(pre);
      TargetUserIdsKeys(pre, k);
      if IsTarget(u) {
        PutKeys(d, u.id, u.realName.value);
      }
      var added := IsTarget(u) && u.id == k;
      assert k in Keys(TargetUserIds(users)) <==> k in Keys(d) || added;
      if k in Keys(d) {
        var i :| 0 <= i < n && pre[i].id == k && IsTarget(pre[i]);
        assert users[i] == pre[i];
      } else if !added {
        forall i | 0 <= i < |users|
          ensures !(users[i].id == k && IsTarget(users[i]))
        {
          if i < n {
            assert users[i] == pre[i];
          }
        }
      }
    }
  }

  /** The name kept for an id is that of the LAST qualifying entry with that
      id. */
  lemma {:induction false} TargetUserIdsName(users: seq<User>, i: nat)
    requires i < |users| && IsTarget(users[i])
    requires forall j :: i < j < |users| && users[j].id == users[i].id ==> !IsTarget(users[j])
    ensures Get(TargetUserIds(users), users[i].id, "") == users[i].realName.value
  {
    var n := |users| - 1;
    var pre, u := users[..n], users[n];
    var d := TargetUserIds(pre);
    if i == n {
      PutGet(d, u.id, u.realName.value, u.id, "");
    } else {
      TargetUserIdsName(pre, i);
      if IsTarget(u) {
        PutGet(d, u.id, u.realName.value, users[i].id, "");
      }
    }
  }

  /** Every name kept is one of the target names, compared exactly. */
  lemma {:induction false} TargetUserIdsNames(users: seq<User>)
    ensures forall e :: e in TargetUserIds(users) ==> e.1 in TargetUsers
  {
    if users != [] {
      var u := users[|users| - 1];
      TargetUserIdsNames(users[..|users| - 1]);
      if IsTarget(u) {
        PutEntries(TargetUserIds(users[..|users| - 1]), u.id, u.realName.value);
      }
    }
  }
}
