/**
 * `runMethod` of bin/web.js: the tenant scoping of the `Key` and `Prefix`
 * parameters of an S3 call and the fan-out of the call to every configured
 * space, of which only the primary's result reaches the caller.
 */
module Tenant {
  import opened Common
  import opened Text

  /** A parameter value of an S3 call as it arrives in a JSON body. */
  datatype Value = Str(s: string) | Num(n: int) | Bool(b: bool) | Null | Blob(bytes: Bytes) | Structured

  type Params = map<string, Value>

  /** `/^\d{3,}\//.test(s)`: three or more digits, then `/`, at the start. */
  predicate HasTenantPrefix(s: string)
  {
    var n := LeadingDigitCount(s);
    3 <= n < |s| && s[n] == '/'
  }

  /** The regular expression read literally: some run of at least three digits is followed by `/`. */
  lemma HasTenantPrefixMeans(s: string)
    ensures HasTenantPrefix(s) <==> exists k :: 3 <= k < |s| && AllDigits(s[..k]) && s[k] == '/'
  {
    var n := LeadingDigitCount(s);
    if k :| 3 <= k < |s| && AllDigits(s[..k]) && s[k] == '/' {
      assert !IsDigit(s[k]);
      assert n <= k;
      assert n == k;
    }
    if HasTenantPrefix(s) {
      assert AllDigits(s[..n]);
    }
  }

  /** The parameters `runMethod` scopes, in the order it visits them. */
  const ScopedNames: seq<string> := ["Key", "Prefix"]

  /** One parameter after scoping: a non-empty string without a tenant prefix gets `<storeId>/` in front. */
  function ScopeValue(storeId: nat, v: Value): Value
  {
    if v.Str? && v.s != [] && !HasTenantPrefix(v.s) then Str(Decimal(storeId) + "/" + v.s) else v
  }

  /** Whether a store id switches scoping on: only ids above 100 (undefined compares false). */
  predicate Scopes(storeId: Option<int>)
  {
    storeId.Some? && storeId.value > 100
  }

  /** The parameters after the scoping step of `runMethod`. */
  function TenantScoped(params: Params, storeId: Option<int>): (r: Params)
    ensures r.Keys == params.Keys
    ensures forall k :: k in params && k !in ScopedNames ==> r[k] == params[k]
    ensures !Scopes(storeId) ==> r == params
  {
    if Scopes(storeId) then
      map k | k in params :: if k in ScopedNames then ScopeValue(storeId.value, params[k]) else params[k]
    else params
  }

  /** A value prefixed with a store id of three or more digits carries a tenant prefix, so scoping leaves it alone. */
  lemma PrefixedHasTenantPrefix(storeId: nat, s: string)
    requires storeId >= 100
    ensures HasTenantPrefix(Decimal(storeId) + "/" + s)
  {
    var d := Decimal(storeId);
    LeadingDigitsBeforeSeparator(d, '/', s);
    assert (d + "/" + s)[|d|] == '/';
  }

  /** After scoping every non-empty `Key` or `Prefix` string starts with a tenant prefix. */
  lemma ScopedValuesArePrefixed(params: Params, storeId: Option<int>, k: string)
    requires Scopes(storeId) && k in params && k in ScopedNames
    requires params[k].Str? && params[k].s != []
    ensures var r := TenantScoped(params, storeId)[k];
      && r.Str? && HasTenantPrefix(r.s)
      && (r == params[k] || r.s == Decimal(storeId.value) + "/" + params[k].s)
  {
    if !HasTenantPrefix(params[k].s) {
      PrefixedHasTenantPrefix(storeId.value, params[k].s);
    }
  }

  /**
   * Scoping changes a parameter exactly when the store id is above 100, the
   * name is `Key` or `Prefix` and the value is a non-empty string without a
   * tenant prefix; every other value, whatever store it names, passes through.
   */
  lemma ScopingChangesExactly(params: Params, storeId: Option<int>, k: string)
    requires k in params
    ensures TenantScoped(params, storeId)[k] != params[k] <==>
      && Scopes(storeId) && k in ScopedNames
      && params[k].Str? && params[k].s != [] && !HasTenantPrefix(params[k].s)
  {
    var v := params[k];
    if Scopes(storeId) && k in ScopedNames && v.Str? && v.s != [] && !HasTenantPrefix(v.s) {
      var r := TenantScoped(params, storeId)[k];
      assert |r.s| > |v.s|;
    }
  }

  /**
   * A key already prefixed with another store's id is not re-scoped: under
   * any store id, `<other>/x` reaches the space unchanged.
   */
  lemma OtherTenantKeyPassesThrough(params: Params, storeId: Option<int>, k: string, other: nat, x: string)
    requires k in params && other >= 100
    requires params[k] == Str(Decimal(other) + "/" + x)
    ensures TenantScoped(params, storeId)[k] == params[k]
  {
    PrefixedHasTenantPrefix(other, x);
  }

  /**
   * A call with neither `Key` nor `Prefix` (a `listObjects` without a prefix,
   * say) is not scoped at all, whatever the store id.
   */
  lemma UnscopedWithoutKeyOrPrefix(params: Params, storeId: Option<int>)
    requires "Key" !in params && "Prefix" !in params
    ensures TenantScoped(params, storeId) == params
  {
    var r := TenantScoped(params, storeId);
    forall k | k in params
      ensures r[k] == params[k]
    {
      assert k !in ScopedNames;
    }
  }

  /** Scoping is idempotent: a store id above 100 has at least three digits. */
  lemma ScopingIdempotent(params: Params, storeId: Option<int>)
    ensures TenantScoped(TenantScoped(params, storeId), storeId) == TenantScoped(params, storeId)
  {
    if Scopes(storeId) {
      var once := TenantScoped(params, storeId);
      var twice := TenantScoped(once, storeId);
      forall k | k in params
        ensures twice[k] == once[k]
      {
        var v := params[k];
        if k in ScopedNames && v.Str? && v.s != [] && !HasTenantPrefix(v.s) {
          PrefixedHasTenantPrefix(storeId.value, v.s);
        }
      }
    }
  }

  /** One configured space: its bucket and its region. */
  datatype Space = Space(bucket: string, locationConstraint: string)

  /** A call of `method` on the space at index `space`, with the parameters it receives. */
  datatype SpaceCall = SpaceCall(space: nat, methodName: string, params: Params)

  /** `{ ...params, Bucket: bucket }`. */
  function WithBucket(params: Params, bucket: string): Params
  {
    params["Bucket" := Str(bucket)]
  }

  /**
   * `runMethod(method, params, storeId)`: the scoping step, then one call per
   * secondary space (none for `listObjects`) and finally the call on the
   * primary space, whose outcome is returned. `outcomes[i]` is what the call
   * on space `i` settles to; a secondary's outcome is only logged.
   */
  method RunMethod(methodName: string, params: Params, storeId: Option<int>, spaces: seq<Space>,
                   outcomes: seq<Settled<Value>>)
    returns (calls: seq<SpaceCall>, result: Settled<Value>)
    requires |spaces| > 0 && |outcomes| == |spaces|
    ensures |calls| == if methodName == "listObjects" then 1 else |spaces|
    ensures calls[|calls| - 1] == SpaceCall(0, methodName, WithBucket(TenantScoped(params, storeId), spaces[0].bucket))
    ensures forall j :: 0 <= j < |calls| - 1 ==>
      calls[j] == SpaceCall(j + 1, methodName, WithBucket(TenantScoped(params, storeId), spaces[j + 1].bucket))
    ensures result == outcomes[0]
  {
    var scoped := params;
    if storeId.Some? && storeId.value > 100 {
      for j := 0 to |ScopedNames|
        invariant scoped.Keys == params.Keys
        invariant forall k :: k in params ==>
          scoped[k] == if k in ScopedNames[..j] then ScopeValue(storeId.value, params[k]) else params[k]
      {
        var name := ScopedNames[j];
        assert name !in ScopedNames[..j];
        if name in scoped {
          var val := scoped[name];
          if val.Str? && val.s != [] && !HasTenantPrefix(val.s) {
            scoped := scoped[name := Str(Decimal(storeId.value) + "/" + val.s)];
          }
        }
        assert ScopedNames[..j + 1] == ScopedNames[..j] + [name];
      }
      assert ScopedNames[..|ScopedNames|] == ScopedNames;
    }
    assert scoped == TenantScoped(params, storeId);
    calls := [];
    if methodName != "listObjects" {
      for i := 1 to |spaces|
        invariant |calls| == i - 1
        invariant forall j :: 0 <= j < i - 1 ==>
          calls[j] == SpaceCall(j + 1, methodName, WithBucket(scoped, spaces[j + 1].bucket))
      {
        calls := calls + [SpaceCall(i, methodName, scoped["Bucket" := Str(spaces[i].bucket)])];
      }
    }
    calls := calls + [SpaceCall(0, methodName, scoped["Bucket" := Str(spaces[0].bucket)])];
    result := outcomes[0];
  }
}
