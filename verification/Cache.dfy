/** utils/cache.go as the source has it: items that the map and the timers share, updated in place. */
module Cache {
  import opened Prelude
  import opened Text
  import opened CacheModel

  class CacheItem<T> {
    var version: int
    var value: T
    const key: string

    constructor (key: string, value: T)
      ensures this.key == key && this.value == value && version == 0
    {
      this.key, this.value, version := key, value, 0;
    }
  }

  class Cache<T> {
    var cacheMap: map<string, CacheItem<T>>
    /** The goroutines that sleep until their time is due. */
    var timers: set<Timer<CacheItem<T>>>
    /** Whether there are handlers, and the calls that have been made of them. */
    const hasExpireHandler: bool
    const hasDeleteHandler: bool
    var expireCalls: seq<(string, T)>
    var deleteCalls: seq<string>
    /** Every item ever made; deleted ones live on in their timers. */
    ghost var items: set<CacheItem<T>>

    ghost function Model(): State<CacheItem<T>, T>
      reads this, items
    {
      State(map i | i in items :: Item(i.key, i.value, i.version), cacheMap, timers)
    }

    ghost predicate Valid()
      reads this, items
    {
      && WellFormed(Model())
      && forall k :: k in cacheMap ==> GetKey(k) == k
    }

    constructor (expireHandler: bool, deleteHandler: bool)
      ensures Valid() && Model() == State(map[], map[], {}) && fresh(items)
      ensures hasExpireHandler == expireHandler && hasDeleteHandler == deleteHandler
      ensures expireCalls == [] && deleteCalls == []
    {
      cacheMap, timers, items := map[], {}, {};
      hasExpireHandler, hasDeleteHandler, expireCalls, deleteCalls := expireHandler, deleteHandler, [], [];
    }

    method Get(key: string) returns (value: Option<T>)
      requires Valid()
      ensures value == if GetKey(key) in cacheMap then Some(Model().heap[cacheMap[GetKey(key)]].value) else None
    {
      var k := GetKey(key);
      value := None;
      if k in cacheMap {
        assert cacheMap[k] in items;
        value := Some(cacheMap[k].value);
      }
    }

    /** The key is looked up as it is: it is found only if it is its own normal form. */
    method HasKey(key: string) returns (found: bool)
      requires Valid()
      ensures found <==> GetKey(key) == key && GetKey(key) in cacheMap
    {
      found := key in cacheMap;
    }

    /** CacheItem.expire. */
    method Expire(item: CacheItem<T>, now: int, duration: int)
      requires WellFormed(Model()) && item in items
      modifies this`timers, item`version
      ensures Model() == Renew(old(Model()), item, now + duration)
    {
      item.version := item.version + 1;
      timers := timers + {Timer(item, item.version, now + duration)};
    }

    method NewItem(key: string, value: T) returns (item: CacheItem<T>)
      requires WellFormed(Model())
      modifies this`cacheMap, this`items
      ensures fresh(item) && items == old(items) + {item}
      ensures Model() == Insert(old(Model()), key, value, item)
    {
      item := new CacheItem(key, value);
      items := items + {item};
      cacheMap := cacheMap[key := item];
    }

    method Set(key: string, value: T, now: int) returns (item: CacheItem<T>)
      requires Valid()
      modifies this`cacheMap, this`items, items
      ensures Valid() && fresh(items - old(items))
      ensures var st := Step(now, Op.Set(GetKey(key), value, item));
        Enabled(old(Model()), st) && Model() == Apply(old(Model()), st)
    {
      var k := GetKey(key);
      assert GetKey(k) == k by { GetKeyIdempotent(key); }
      ghost var before := Model();
      var existed := k in cacheMap;
      item := Put(k, value);
      if existed {
        item.version := item.version + 1;
      }
      ApplyWellFormed(before, Step(now, Op.Set(k, value, item)));
    }

    method SetExpire(key: string, duration: int, now: int) returns (found: bool)
      requires Valid()
      modifies this`timers, items
      ensures Valid() && items == old(items) && cacheMap == old(cacheMap)
      ensures found <==> GetKey(key) in cacheMap
      ensures Model() == Apply(old(Model()), Step(now, Op.SetExpire(GetKey(key), duration)))
    {
      var k := GetKey(key);
      ApplyWellFormed(Model(), Step(now, Op.SetExpire(k, duration)));
      found := k in cacheMap;
      if found {
        assert cacheMap[k] in items;
        Expire(cacheMap[k], now, duration);
      }
    }

    method SetValue(key: string, value: T, duration: int, now: int) returns (item: CacheItem<T>)
      requires Valid()
      modifies this`cacheMap, this`timers, this`items, items
      ensures Valid() && fresh(items - old(items))
      ensures var st := Step(now, Op.SetValue(GetKey(key), value, duration, item));
        Enabled(old(Model()), st) && Model() == Apply(old(Model()), st)
    {
      var k := GetKey(key);
      assert GetKey(k) == k by { GetKeyIdempotent(key); }
      ghost var before := Model();
      item := Put(k, value);
      Expire(item, now, duration);
      ApplyWellFormed(before, Step(now, Op.SetValue(k, value, duration, item)));
    }

    /** The item of key k, which now holds the value. */
    method Put(k: string, value: T) returns (item: CacheItem<T>)
      requires WellFormed(Model())
      modifies this`cacheMap, this`items, items
      ensures WellFormed(Model()) && item in items && fresh(items - old(items))
      ensures k !in old(cacheMap) ==> item !in old(items) && Model() == Insert(old(Model()), k, value, item)
      ensures k in old(cacheMap) ==> item == old(cacheMap)[k] && Model() == SetItem(old(Model()), item, value)
    {
      if k in cacheMap {
        item := cacheMap[k];
        assert item in items;
        item.value := value;
      } else {
        item := NewItem(k, value);
      }
    }

    /** The key is used as it is, so an entry goes only if it is named by its normal form; the handler hears of any key. */
    method Delete(key: string)
      requires Valid()
      modifies this`cacheMap, this`deleteCalls
      ensures Valid()
      ensures Model() == Apply(old(Model()), Step(0, Op.Delete(key)))
      ensures old(cacheMap) != cacheMap <==> GetKey(key) == key && key in old(cacheMap)
      ensures deleteCalls == if hasDeleteHandler then old(deleteCalls) + [key] else old(deleteCalls)
    {
      if hasDeleteHandler {
        deleteCalls := deleteCalls + [key];
      }
      Unindex(key);
    }

    method Unindex(key: string)
      requires Valid()
      modifies this`cacheMap
      ensures Valid() && Model() == Remove(old(Model()), key)
      ensures old(cacheMap) != cacheMap <==> key in old(cacheMap)
    {
      cacheMap := map k | k in cacheMap && k != key :: cacheMap[k];
      assert cacheMap == old(cacheMap) - {key};
    }

    /** The goroutine of one timer: the version check and the expire handler; the delete is left to another goroutine. */
    method CheckTimer(t: Timer<CacheItem<T>>, now: int) returns (toDelete: Option<string>)
      requires Valid() && t in timers && t.due <= now
      modifies this`timers, this`expireCalls
      ensures Valid() && Model() == Check(old(Model()), t)
      ensures toDelete == if Live(old(Model()), t) then Some(t.item.key) else None
      ensures expireCalls ==
        if toDelete.Some? && hasExpireHandler then old(expireCalls) + [(t.item.key, t.item.value)] else old(expireCalls)
    {
      timers := timers - {t};
      assert t.item in items;
      toDelete := None;
      if t.item.version == t.version {
        toDelete := Some(t.item.key);
        if hasExpireHandler {
          expireCalls := expireCalls + [(t.item.key, t.item.value)];
        }
      }
    }

    /** Check and delete without anything in between. */
    method Fire(t: Timer<CacheItem<T>>, now: int) returns (expired: bool)
      requires Valid() && t in timers && t.due <= now
      modifies this`cacheMap, this`timers, this`expireCalls, this`deleteCalls
      ensures Valid()
      ensures Model() == Apply(old(Model()), Step(now, Op.Fire(t)))
      ensures expired == Live(old(Model()), t)
    {
      ApplyWellFormed(Model(), Step(now, Op.Fire(t)));
      var toDelete := CheckTimer(t, now);
      expired := toDelete.Some?;
      if expired {
        Delete(toDelete.value);
      }
    }
  }
}
