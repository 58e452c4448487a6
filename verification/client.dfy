/** What the client's stores and pages share: JavaScript values and object
    spreading, the records the server sends, the requests a store issues,
    and how an action settles.  Each store action is modelled as one
    function from the store's state and the server's answers (inputs the
    model does not choose) to the final state, the requests issued in
    order, and whether the returned promise resolved or was rejected. */
module Client {
  import opened Wrappers
  import opened Text
  import Strconv
  import Scopes

  /** A JSON-ish JavaScript value as the stores pass them around. */
  datatype JsVal = Undefined | Bool(b: bool) | Num(n: int) | NaN | Str(s: string) | Arr(items: seq<JsVal>)

  /** A plain JavaScript object: its own keys and their values. */
  type Obj = map<string, JsVal>

  /** `{ ...a, ...b }`: every key of either, with `b`'s value where both
      have one (an explicit `undefined` in `b` included). */
  function Spread(a: Obj, b: Obj): (r: Obj)
    ensures forall k :: k in r <==> k in a || k in b
    ensures forall k :: k in b ==> r[k] == b[k]
    ensures forall k :: k in a && k !in b ==> r[k] == a[k]
  {
    a + b
  }

  /** Spreading the same object again changes nothing, and spreading an
      empty object is the identity. */
  lemma SpreadIdempotent(a: Obj, b: Obj)
    ensures Spread(Spread(a, b), b) == Spread(a, b)
    ensures Spread(a, map[]) == a
  {
  }

  /** Spreading a one-key object sets that key and keeps the rest. */
  lemma SpreadOne(a: Obj, k: string, v: JsVal)
    ensures Spread(a, map[k := v]) == a[k := v]
  {
    assert forall x :: x in Spread(a, map[k := v]) <==> x in a[k := v];
  }

  /** `error.response?.data?.error || fallback`: the server's `error`
      field unless it is missing or empty (both falsy). */
  function ErrorMessage(serverError: Option<string>, fallback: string): (m: string)
    ensures serverError.Some? && serverError.value != "" ==> m == serverError.value
    ensures serverError.None? || serverError.value == "" ==> m == fallback
  {
    match serverError
    case Some(e) => if e != "" then e else fallback
    case None => fallback
  }

  /** `x || 1` for a number: zero (falsy) is replaced. */
  function OrOne(x: int): int
  {
    if x != 0 then x else 1
  }

  /** A JavaScript array of numbers. */
  function NumArray(xs: seq<int>): (v: JsVal)
    ensures v.Arr? && |v.items| == |xs|
    ensures forall i :: 0 <= i < |xs| ==> v.items[i] == Num(xs[i])
  {
    Arr(seq(|xs|, i requires 0 <= i < |xs| => Num(xs[i])))
  }

  /** Reading a value back as an array of numbers, as the server's JSON
      binding does; anything else is refused. */
  function AsNums(v: JsVal): (r: Option<seq<int>>)
    ensures r.Some? <==> v.Arr? && forall i :: 0 <= i < |v.items| ==> v.items[i].Num?
    ensures r.Some? ==> |r.value| == |v.items| && forall i :: 0 <= i < |v.items| ==> v.items[i] == Num(r.value[i])
  {
    if v.Arr? && forall i :: 0 <= i < |v.items| ==> v.items[i].Num?
    then Some(seq(|v.items|, i requires 0 <= i < |v.items| => v.items[i].n))
    else None
  }

  /** What is sent as a number array reads back unchanged. */
  lemma NumArrayRoundTrip(xs: seq<int>)
    ensures AsNums(NumArray(xs)) == Some(xs)
  {
    var v := NumArray(xs);
    assert forall i :: 0 <= i < |v.items| ==> v.items[i].Num?;
    assert AsNums(v).Some?;
    assert AsNums(v).value == xs;
  }

  /** `Number(v)` for the strings a numeric input or an id select
      produces: a run of decimal digits is its value, anything else is not
      a number. */
  function JsNumber(v: string): (j: JsVal)
    ensures v != "" && Strconv.AllDigits(v) ==> j == Num(Strconv.DigitsValue(v))
    ensures v == "" || !Strconv.AllDigits(v) ==> j == NaN
  {
    if v != "" && Strconv.AllDigits(v) then Num(Strconv.DigitsValue(v)) else NaN
  }

  /** `v === '' ? undefined : Number(v)`: the form's reading of an
      optional numeric field. */
  function EmptyOrNumber(v: string): (j: JsVal)
    ensures v == "" <==> j == Undefined
  {
    if v == "" then Undefined else JsNumber(v)
  }

  /** An id written out in decimal reads back as that id. */
  lemma EmptyOrNumberNatToString(n: nat)
    ensures EmptyOrNumber(NatToString(n)) == Num(n)
  {
    Strconv.SpellNatToString(n);
  }

  // ---------------------------------------------------------------------
  // Labels and paging controls shared by the pages
  // ---------------------------------------------------------------------

  function CapitalizeAll(words: seq<string>): (r: seq<string>)
    ensures |r| == |words|
    ensures forall k :: 0 <= k < |words| ==> r[k] == Capitalize(words[k])
  {
    if |words| == 0 then [] else [Capitalize(words[0])] + CapitalizeAll(words[1..])
  }

  /** `s.split('_').map(w => w.charAt(0).toUpperCase() + w.slice(1)).join(' ')`. */
  function TitleWords(s: string): string
  {
    Join(CapitalizeAll(Split(s, '_')), ' ')
  }

  /** The same label character by character: underscores become spaces,
      the first letter of each word is upper-cased, the rest is kept. */
  function TitleChar(s: string, i: nat): char
    requires i < |s|
  {
    if s[i] == '_' then ' '
    else if i == 0 || s[i - 1] == '_' then UpperChar(s[i])
    else s[i]
  }

  /** The label of two underscore-joined parts, the first without an
      underscore: the first word capitalised, a space, the label of the rest. */
  lemma TitleWordsCons(a: string, b: string)
    requires '_' !in a
    ensures TitleWords(a + "_" + b) == Capitalize(a) + " " + TitleWords(b)
  {
    var s := a + "_" + b;
    assert s[|a|] == '_';
    var i := IndexOf(s, '_');
    assert forall j :: 0 <= j < |a| ==> s[j] == a[j];
    assert i >= |a|;
    assert i == |a|;
    assert s[..i] == a;
    assert s[i + 1..] == b;
    assert Split(s, '_') == [a] + Split(b, '_');
    var caps := CapitalizeAll(Split(s, '_'));
    assert caps[1..] == CapitalizeAll(Split(b, '_'));
  }

  /** A label of one word is that word capitalised. */
  lemma TitleWordsOne(a: string)
    requires '_' !in a
    ensures TitleWords(a) == Capitalize(a)
  {
    assert CapitalizeAll([a]) == [Capitalize(a)];
  }

  /** The split-map-join label agrees with the character-wise one. */
  lemma {:induction false} TitleWordsPointwise(s: string)
    ensures |TitleWords(s)| == |s|
    ensures forall i :: 0 <= i < |s| ==> TitleWords(s)[i] == TitleChar(s, i)
    decreases |s|
  {
    if '_' in s {
      var i := IndexOf(s, '_');
      var a := s[..i];
      var rest := s[i + 1..];
      TitleWordsPointwise(rest);
      assert s == a + "_" + rest;
      TitleWordsCons(a, rest);
      forall j | 0 <= j < |s|
        ensures TitleWords(s)[j] == TitleChar(s, j)
      {
        if j > i {
          assert TitleWords(rest)[j - i - 1] == TitleChar(rest, j - i - 1);
        }
        ConsCharAt(a, rest, j);
      }
    } else {
      TitleWordsOne(s);
      forall j | 0 <= j < |s|
        ensures TitleWords(s)[j] == TitleChar(s, j)
      {
        WordCharAt(s, j);
      }
    }
  }

  /** One character of a capitalised word without underscores. */
  lemma WordCharAt(w: string, j: nat)
    requires '_' !in w && j < |w|
    ensures Capitalize(w)[j] == TitleChar(w, j)
  {
    assert w[j] in w;
    if j > 0 {
      assert w[j - 1] in w;
      assert Capitalize(w)[j] == Capitalize(w)[1..][j - 1];
    }
  }

  /** One character of the label of `a_rest`, from the first word or from
      the label of the rest. */
  lemma ConsCharAt(a: string, rest: string, j: nat)
    requires '_' !in a && j < |a| + 1 + |rest|
    requires |TitleWords(rest)| == |rest|
    requires j > |a| ==> TitleWords(rest)[j - |a| - 1] == TitleChar(rest, j - |a| - 1)
    ensures (Capitalize(a) + " " + TitleWords(rest))[j] == TitleChar(a + "_" + rest, j)
  {
    var s := a + "_" + rest;
    if j < |a| {
      WordCharAt(a, j);
      assert s[j] == a[j];
      if j > 0 {
        assert s[j - 1] == a[j - 1];
      }
    } else if j > |a| {
      assert s[j] == rest[j - |a| - 1];
      if j - |a| - 1 > 0 {
        assert s[j - 1] == rest[j - |a| - 2];
      }
    }
  }

  /** `Math.ceil(total / pageSize)` for a positive page size. */
  function PageCount(total: int, pageSize: int): int
    requires pageSize > 0
  {
    (total + pageSize - 1) / pageSize
  }

  /** The Previous button: disabled on the first page only. */
  function PreviousDisabled(currentPage: int): (d: bool)
  {
    currentPage == 1
  }

  /** The Next button of the settings cards:
      `currentPage >= Math.ceil(total / pageSize)` in JavaScript numbers.
      With a zero page size the quotient is infinite or `NaN`, so the
      button stays enabled unless the total is negative. */
  function NextDisabled(currentPage: int, total: int, pageSize: int): (d: bool)
  {
    if pageSize > 0 then currentPage >= PageCount(total, pageSize)
    else if pageSize == 0 then total < 0
    else currentPage * pageSize <= total
  }

  /** Being on or past the last page is a statement about products: for a
      positive page size, Next is disabled exactly when the pages up to
      the current one hold the whole total. */
  lemma NextDisabledCoversTotal(currentPage: int, total: int, pageSize: int)
    ensures pageSize > 0 ==> (NextDisabled(currentPage, total, pageSize) <==> currentPage * pageSize >= total)
  {
    if pageSize <= 0 { return; }
    var q := PageCount(total, pageSize);
    var r := (total + pageSize - 1) % pageSize;
    assert q * pageSize + r == total + pageSize - 1;
    if currentPage >= q {
      Scopes.MulMonotone(q, currentPage, pageSize);
    } else {
      Scopes.MulMonotone(currentPage, q - 1, pageSize);
      assert (q - 1) * pageSize == q * pageSize - pageSize;
    }
  }

  datatype Verb = GET | POST | PUT | PATCH | DELETE

  /** One HTTP request through the API client: the path under `/api`, the
      query parameters and the JSON body. */
  datatype Request = Request(verb: Verb, path: string, params: Obj, body: Obj)

  function Get(path: string, params: Obj): Request { Request(GET, path, params, map[]) }

  /** The path of a resource: `${base}/${id}`. */
  function ItemPath(base: string, id: nat): string
  {
    base + "/" + NatToString(id)
  }

  /** The server's answer to one request: the decoded payload, or a
      failure with the `error` field of the body if it had one. */
  datatype Answer<T> = Answered(data: T) | Failed(serverError: Option<string>)

  /** How an action's promise settles: with a value, or rejected with the
      error it caught. */
  datatype Settled<T> = Resolved(value: T) | Rejected(serverError: Option<string>)

  /** The final state, the requests in order, and the settlement. */
  datatype Step<S, T> = Step(state: S, requests: seq<Request>, result: Settled<T>)

  // ---------------------------------------------------------------------
  // The records the server sends (the fields the client reads)
  // ---------------------------------------------------------------------

  datatype ClientUser = ClientUser(id: nat, email: string, fullName: string, isActive: bool)

  datatype ClientTenant = ClientTenant(id: nat, name: string, status: string)

  /** A membership; `user` is present when the server preloaded it. */
  datatype TenantUser = TenantUser(id: nat, tenantId: nat, userId: nat, role: string, user: Option<ClientUser>)

  datatype ClientStage = ClientStage(
    id: nat, name: string, order: int, probability: int, color: string,
    isDefault: bool, isClosedWon: bool, isClosedLost: bool)

  /** A deal; the server may send `stage_id`, a nested `stage`, or both. */
  datatype ClientDeal = ClientDeal(
    id: nat, title: string, value: int, currency: string, status: string,
    stageId: Option<nat>, stage: Option<ClientStage>, contactId: Option<nat>,
    probability: int, expectedCloseDate: Option<string>, description: Option<string>)

  datatype ClientContact = ClientContact(
    id: nat, firstName: string, lastName: string, email: Option<string>,
    status: string, source: Option<string>)

  datatype AuditEntry = AuditEntry(id: nat, userId: nat, action: string, resource: string, resourceId: nat)
}
