/** RedisStore (src/redis_store.cpp): its commands on the flat keyspace behave as updates of separate maps. */
module Redis {
  import opened Basics
  import opened Text
  import opened Store
  import opened Keyspace

  const CHALLENGE_SECONDS: nat := 120

  class RedisStore {
    /** The Redis server: one keyspace of strings and sets, and the time limits of keys. */
    var keys: map<string, Item>
    var limits: map<string, nat>
    /** What the keyspace stands for. */
    ghost var typed: Typed

    ghost predicate Valid()
      reads this
    {
      Shows(keys, typed) && LimitsOk(limits)
    }

    constructor ()
      ensures Valid() && typed == Typed(map[], map[], map[], map[], map[], map[])
    {
      keys, limits := map[], map[];
      typed := Typed(map[], map[], map[], map[], map[], map[]);
    }

    // -------------------------------------------------------------- commands

    /** GET; the error reply for a set reads as "". */
    method CmdGet(key: string) returns (value: string)
      ensures value == if key in keys && keys[key].Text? then keys[key].text else ""
    {
      value := if key in keys && keys[key].Text? then keys[key].text else "";
    }

    method CmdSet(key: string, value: string)
      modifies `keys, `limits
      ensures keys == old(keys)[key := Text(value)] && limits == old(limits) - {key}
    {
      keys, limits := keys[key := Text(value)], limits - {key};
    }

    method CmdSetEx(key: string, value: string, seconds: nat)
      modifies `keys, `limits
      ensures keys == old(keys)[key := Text(value)] && limits == old(limits)[key := seconds]
    {
      keys, limits := keys[key := Text(value)], limits[key := seconds];
    }

    method CmdDel(key: string)
      modifies `keys, `limits
      ensures keys == old(keys) - {key} && limits == old(limits) - {key}
    {
      keys, limits := keys - {key}, limits - {key};
    }

    /** SADD; a string under the key is an error and stays. */
    method CmdSAdd(key: string, member: string)
      modifies `keys
      ensures keys == if key in old(keys) && old(keys)[key].Text? then old(keys)
                      else old(keys)[key := Bag(BagOf(old(keys), key) + {member})]
    {
      if key in keys && keys[key].Text? {
        return;
      }
      keys := keys[key := Bag(BagOf(keys, key) + {member})];
    }

    /** SREM drops a set with its last member; a string under the key is an error and stays. */
    method CmdSRem(key: string, member: string)
      modifies `keys, `limits
      ensures if key in old(keys) && old(keys)[key].Text? then keys == old(keys) && limits == old(limits)
              else keys == WithBag(old(keys), key, BagOf(old(keys), key) - {member})
                   && limits == if key in keys then old(limits) else old(limits) - {key}
    {
      if key in keys && keys[key].Text? {
        return;
      }
      var left := BagOf(keys, key) - {member};
      if left == {} {
        keys, limits := keys - {key}, limits - {key};
      } else {
        keys := keys[key := Bag(left)];
      }
    }

    method CmdSCard(key: string) returns (n: nat)
      ensures n == |BagOf(keys, key)|
    {
      n := |BagOf(keys, key)|;
    }

    // -------------------------------------------------------------- typed access

    /** SET of a key that holds a string; `after` is the typed view with that one value changed. */
    method SetString(k: RedisKey, value: string, ghost after: Typed)
      requires Valid() && after.refs == typed.refs && Entry(after, k) == Some(Text(value))
      requires forall l | l != k :: Entry(after, l) == Entry(typed, l)
      modifies this
      ensures Valid() && typed == after
    {
      CmdSet(Encode(k), value);
      typed := after;
      OneKeyChanges(old(keys), old(typed), keys, typed, k);
    }

    /** SETEX of a session or a challenge. */
    method SetTimed(k: RedisKey, value: string, seconds: nat, ghost after: Typed)
      requires Valid() && Expires(k) && after.refs == typed.refs && Entry(after, k) == Some(Text(value))
      requires forall l | l != k :: Entry(after, l) == Entry(typed, l)
      modifies this
      ensures Valid() && typed == after && limits == old(limits)[Encode(k) := seconds]
    {
      CmdSetEx(Encode(k), value, seconds);
      typed := after;
      OneKeyChanges(old(keys), old(typed), keys, typed, k);
    }

    method GetString(k: RedisKey) returns (value: string)
      requires Valid() && !k.RefsKey?
      ensures value == if Entry(typed, k).Some? then Entry(typed, k).value.text else ""
    {
      assert Lookup(keys, Encode(k)) == Entry(typed, k);
      value := CmdGet(Encode(k));
    }

    method DelKey(k: RedisKey)
      requires Valid()
      modifies this
      ensures Valid() && typed == WithoutKey(old(typed), k)
    {
      DeletedShows(keys, typed, k);
      CmdDel(Encode(k));
      typed := WithoutKey(typed, k);
    }

    /** The server drops a key whose time is over. That can only be a session or a challenge: no shortcut, size
        or reference is ever lost this way. */
    method Expire(key: string) returns (ghost k: RedisKey)
      requires Valid() && key in limits
      modifies this
      ensures Expires(k) && Encode(k) == key
      ensures Valid() && typed == WithoutKey(old(typed), k)
      ensures typed.paths == old(typed).paths && typed.refs == old(typed).refs
      ensures typed.objects == old(typed).objects && typed.sizes == old(typed).sizes
    {
      k :| Expires(k) && Encode(k) == key;
      DeletedShows(keys, typed, k);
      CmdDel(key);
      typed := WithoutKey(typed, k);
    }

    // -------------------------------------------------------------- sessions

    method SetSession(token: Token, json: string, seconds: nat)
      requires Valid()
      modifies this
      ensures Valid() && typed == old(typed).(sessions := old(typed).sessions[token := json])
      ensures limits == old(limits)[Encode(SessionKey(token)) := seconds]
    {
      SetTimed(SessionKey(token), json, seconds, typed.(sessions := typed.sessions[token := json]));
    }

    method GetSession(token: Token) returns (json: string)
      requires Valid()
      ensures json == if token in typed.sessions then typed.sessions[token] else ""
    {
      json := GetString(SessionKey(token));
    }

    method DelSession(token: Token)
      requires Valid()
      modifies this
      ensures Valid() && typed == old(typed).(sessions := old(typed).sessions - {token})
    {
      DelKey(SessionKey(token));
    }

    // -------------------------------------------------------------- objects

    method SetObject(m: Md5, path: string, size: nat)
      requires Valid()
      modifies this
      ensures Valid() && typed == old(typed).(
        objects := old(typed).objects[m := path], sizes := old(typed).sizes[m := size])
    {
      SetString(ObjectKey(m), path, typed.(objects := typed.objects[m := path]));
      SetString(SizeKey(m), Decimal(size), typed.(sizes := typed.sizes[m := size]));
    }

    method GetObjectPath(m: Md5) returns (path: string)
      requires Valid()
      ensures path == if m in typed.objects then typed.objects[m] else ""
    {
      path := GetString(ObjectKey(m));
    }

    method DeleteObjectMeta(m: Md5)
      requires Valid()
      modifies this
      ensures Valid() && typed == old(typed).(
        objects := old(typed).objects - {m}, sizes := old(typed).sizes - {m}, refs := old(typed).refs - {m})
    {
      DelKey(ObjectKey(m));
      DelKey(SizeKey(m));
      DelKey(RefsKey(m));
    }

    // -------------------------------------------------------------- references

    method AddRef(m: Md5, k: Key)
      requires Valid()
      modifies this
      ensures Valid() && typed == old(typed).(refs := old(typed).refs[m := old(TypedRefs(typed, m)) + {k}])
    {
      hide Shows, Encode, Member;
      RefsAreBags(keys, typed, m);
      AddedShows(keys, typed, m, k);
      CmdSAdd(Encode(RefsKey(m)), Member(k));
      typed := typed.(refs := typed.refs[m := TypedRefs(typed, m) + {k}]);
    }

    /** SREM and SCARD: how many references are left. */
    method RemoveRef(m: Md5, k: Key) returns (left: nat)
      requires Valid()
      modifies this
      ensures Valid()
      ensures var rest := old(TypedRefs(typed, m)) - {k};
              && left == |rest|
              && typed == old(typed).(refs := if rest == {} then old(typed).refs - {m} else old(typed).refs[m := rest])
    {
      hide Shows, Encode, Member;
      RefsAreBags(keys, typed, m);
      RemovedShows(keys, typed, m, k);
      CmdSRem(Encode(RefsKey(m)), Member(k));
      typed := WithRefs(typed, m, TypedRefs(typed, m) - {k});
      left := CmdSCard(Encode(RefsKey(m)));
    }

    // -------------------------------------------------------------- paths

    method SetPathMd5(k: Key, m: Md5)
      requires Valid()
      modifies this
      ensures Valid() && typed == old(typed).(paths := old(typed).paths[k := m])
    {
      SetString(PathKey(k), m, typed.(paths := typed.paths[k := m]));
    }

    method GetPathMd5(k: Key) returns (m: Md5)
      requires Valid()
      ensures m == if k in typed.paths then typed.paths[k] else ""
    {
      m := GetString(PathKey(k));
    }

    method DelPathMd5(k: Key)
      requires Valid()
      modifies this
      ensures Valid() && typed == old(typed).(paths := old(typed).paths - {k})
    {
      DelKey(PathKey(k));
    }

    // -------------------------------------------------------------- challenges

    method SetChallenge(token: Token, m: Md5, c: Challenge)
      requires Valid()
      modifies this
      ensures Valid() && typed == old(typed).(chals := old(typed).chals[(token, m) := c])
      ensures limits == old(limits)[Encode(ChallengeKey(token, m)) := CHALLENGE_SECONDS]
    {
      SetTimed(ChallengeKey(token, m), PrintChallenge(c), CHALLENGE_SECONDS,
               typed.(chals := typed.chals[(token, m) := c]));
    }

    /** No stored text ever fails to parse. */
    method GetChallenge(token: Token, m: Md5) returns (r: Result<Option<Challenge>>)
      requires Valid()
      ensures r == Ok(if (token, m) in typed.chals then Some(typed.chals[(token, m)]) else None)
    {
      var s := GetString(ChallengeKey(token, m));
      r := ParseChallenge(s);
      if (token, m) in typed.chals {
        ParseOfPrint(typed.chals[(token, m)]);
      }
    }

    method DelChallenge(token: Token, m: Md5)
      requires Valid()
      modifies this
      ensures Valid() && typed == old(typed).(chals := old(typed).chals - {(token, m)})
    {
      DelKey(ChallengeKey(token, m));
    }
  }
}
