/**
  The settings model `dict_population` builds and the rest of the tool
  reads: variable-store name, then variable offset, then one setting. Both
  levels are insertion-ordered dictionaries. The three setting shapes follow
  the TypedDicts of setupvar-builder/dict_types.py.
 */
module Settings {
  import opened Assoc

  /** The two values a checkbox default can take, as the dump spells them. */
  datatype Toggle = Enabled | Disabled

  /**
    One question of the form. A one-of without `defaultLabel` is a dict
    without a `"default"` key, and one whose `options` is empty is a dict
    without an `"options"` key (the key is created with the first option).
   */
  datatype Setting =
    | OneOf(name: string, size: string, options: Dict<string, string>, defaultLabel: Option<string>)
    | Numeric(name: string, size: string, min: int, max: int, defaultValue: Option<int>)
    | CheckBox(name: string, defaultState: Toggle)

  type Model = Dict<string, Dict<string, Setting>>

  /** A one-of's default, when it has one, is one of its option labels. */
  predicate WfSetting(e: Setting) {
    e.OneOf? ==>
      && DistinctKeys(e.options)
      && (e.defaultLabel.Some? ==> e.defaultLabel.value in Keys(e.options))
  }

  /** What every model the reducer builds satisfies. */
  predicate WfModel(m: Model) {
    && DistinctKeys(m)
    && forall p :: p in m ==> DistinctKeys(p.1) && forall q :: q in p.1 ==> WfSetting(q.1)
  }

  /**
    `after` keeps every store of `before` in place, and within each store
    every offset in place: new keys only ever go to the end.
   */
  ghost predicate Extends(before: Model, after: Model) {
    && Keys(before) <= Keys(after)
    && forall s :: s in Keys(before) ==> Keys(GetOr(before, s, [])) <= Keys(GetOr(after, s, []))
  }

  lemma {:induction false} ExtendsTransitive(a: Model, b: Model, c: Model)
    requires Extends(a, b) && Extends(b, c)
    ensures Extends(a, c)
  {
    forall s | s in Keys(a) ensures Keys(GetOr(a, s, [])) <= Keys(GetOr(c, s, [])) {
      var i :| 0 <= i < |Keys(a)| && Keys(a)[i] == s;
      assert Keys(b)[i] == s;
    }
  }

  /** `settings_dict[store][offset]`, or `None` when either key is missing. */
  function Lookup(m: Model, store: string, offset: string): (r: Option<Setting>)
    ensures r.Some? ==> store in Keys(m) && offset in Keys(GetOr(m, store, []))
    ensures store in Keys(m) && offset in Keys(GetOr(m, store, [])) ==> r.Some?
  {
    match Get(m, store)
    case None => None
    case Some(d) => Get(d, offset)
  }

  /** A stored setting of a well-formed model is well formed. */
  lemma LookupWf(m: Model, store: string, offset: string)
    requires WfModel(m)
    ensures Lookup(m, store, offset).Some? ==> WfSetting(Lookup(m, store, offset).value)
  {
    match Get(m, store)
    case None =>
    case Some(d) =>
      assert (store, d) in m;
      match Get(d, offset)
      case None =>
      case Some(e) =>
        assert (offset, e) in d;
  }

  /**
    `if store not in m: m[store] = {}` followed by `m[store][offset] = e`:
    the entry is replaced wholesale, every other entry is untouched, and a
    new store or offset goes to the end of its dictionary.
   */
  function PutSetting(m: Model, store: string, offset: string, e: Setting): (r: Model)
    ensures Lookup(r, store, offset) == Some(e)
    ensures forall s, o :: (s, o) != (store, offset) ==> Lookup(r, s, o) == Lookup(m, s, o)
    ensures Keys(r) == if store in Keys(m) then Keys(m) else Keys(m) + [store]
    ensures Keys(GetOr(r, store, [])) ==
      var before := Keys(GetOr(m, store, []));
      if offset in before then before else before + [offset]
    ensures forall s :: s != store ==> Get(r, s) == Get(m, s)
    ensures Extends(m, r)
    ensures WfModel(m) && WfSetting(e) ==> WfModel(r)
  {
    var d := GetOr(m, store, []);
    PutKeepsWf(m, store, offset, e);
    PutFrame(m, store, offset, e);
    Put(m, store, Put(d, offset, e))
  }

  lemma PutFrame(m: Model, store: string, offset: string, e: Setting)
    ensures forall s, o :: (s, o) != (store, offset) ==>
      Lookup(Put(m, store, Put(GetOr(m, store, []), offset, e)), s, o) == Lookup(m, s, o)
  {
    var r := Put(m, store, Put(GetOr(m, store, []), offset, e));
    forall s, o | (s, o) != (store, offset) ensures Lookup(r, s, o) == Lookup(m, s, o) {
      if s != store {
        assert Get(r, s) == Get(m, s);
      }
    }
  }

  lemma PutKeepsWf(m: Model, store: string, offset: string, e: Setting)
    ensures WfModel(m) && WfSetting(e) ==> WfModel(Put(m, store, Put(GetOr(m, store, []), offset, e)))
  {
    var d := GetOr(m, store, []);
    var d' := Put(d, offset, e);
    if WfModel(m) && WfSetting(e) {
      if store in Keys(m) {
        assert (store, d) in m;
      }
      forall p | p in Put(m, store, d') ensures DistinctKeys(p.1) && forall q :: q in p.1 ==> WfSetting(q.1) {
        if p != (store, d') {
          assert p in m;
        }
      }
    }
  }
}
