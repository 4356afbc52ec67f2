/** Cookie-header parsing and session-token extraction, shared (as two
    identical copies in the source) by the booking route and the admin
    weekly-calendar route. */
module Cookies {
  import opened Wrappers
  import opened Strings

  const AccessTokenCookie := "sb-access-token"

  /** A JavaScript object used as a string dictionary: its values, and its
      keys in the order `Object.keys` reports them (first assignment first). */
  datatype CookieJar = CookieJar(order: seq<string>, values: map<string, string>)
  {
    ghost predicate WellFormed() {
      && (forall i, j :: 0 <= i < j < |order| ==> order[i] != order[j])
      && values.Keys == set k | k in order
    }
  }

  const EmptyJar := CookieJar([], map[])

  /** The cookie name one `;`-separated part of the header contributes:
      the trimmed text before its first `=`. */
  function PartKey(part: string): string {
    Trim(Split(Trim(part), '=')[0])
  }

  /** The value one part contributes: everything after its first `=`,
      further `=` characters included. */
  function PartValue(part: string): string {
    Join(Split(Trim(part), '=')[1..], '=')
  }

  /** `acc[key] = value` on the dictionary: a new key goes to the end of
      the key order, an existing one keeps its place. */
  function Assign(jar: CookieJar, key: string, value: string): (r: CookieJar)
    ensures r.values == jar.values[key := value]
    ensures jar.order <= r.order
    ensures key in jar.values ==> r.order == jar.order
    ensures key !in jar.values ==> r.order == jar.order + [key]
  {
    CookieJar(if key in jar.values then jar.order else jar.order + [key], jar.values[key := value])
  }

  lemma AssignWellFormed(jar: CookieJar, key: string, value: string)
    requires jar.WellFormed()
    ensures Assign(jar, key, value).WellFormed()
  {
  }

  /** The (name, value) pairs the parts contribute, in header order. */
  function Pairs(parts: seq<string>): (r: seq<(string, string)>)
    ensures |r| == |parts|
    ensures forall i :: 0 <= i < |parts| ==> r[i] == (PartKey(parts[i]), PartValue(parts[i]))
  {
    seq(|parts|, i requires 0 <= i < |parts| => (PartKey(parts[i]), PartValue(parts[i])))
  }

  /** The dictionary after the `reduce` has assigned `pairs` from left to right. */
  function Accumulate(pairs: seq<(string, string)>): CookieJar {
    if pairs == [] then EmptyJar
    else
      var last := pairs[|pairs| - 1];
      Assign(Accumulate(pairs[..|pairs| - 1]), last.0, last.1)
  }

  /** The fold keeps the key order free of repeats and in step with the keys. */
  lemma {:induction false} AccumulateWellFormed(pairs: seq<(string, string)>)
    ensures Accumulate(pairs).WellFormed()
  {
    if pairs != [] {
      var last := pairs[|pairs| - 1];
      AccumulateWellFormed(pairs[..|pairs| - 1]);
      AssignWellFormed(Accumulate(pairs[..|pairs| - 1]), last.0, last.1);
    }
  }

  /** The header's parts, or none when it is absent or empty. */
  function Parts(header: Option<string>): seq<string> {
    if header.None? || header.value == "" then [] else Split(header.value, ';')
  }

  /** What `parseCookies` returns for a header that may be absent (`null`). */
  function CookiesOf(header: Option<string>): (jar: CookieJar)
    ensures jar.WellFormed()
    ensures header == None || header == Some("") ==> jar == EmptyJar
  {
    AccumulateWellFormed(Pairs(Parts(header)));
    Accumulate(Pairs(Parts(header)))
  }

  /** The source's `parseCookies`: a `reduce` over the parts that assigns into
      an accumulator in place. */
  method ParseCookies(header: Option<string>) returns (jar: CookieJar)
    ensures jar == CookiesOf(header)
  {
    if header.None? || header.value == "" {
      return EmptyJar;
    }
    var parts := Split(header.value, ';');
    ghost var pairs := Pairs(parts);
    var order: seq<string> := [];
    var values: map<string, string> := map[];
    for i := 0 to |parts|
      invariant CookieJar(order, values) == Accumulate(pairs[..i])
    {
      var key, value := PartKey(parts[i]), PartValue(parts[i]);
      AccumulateStep(pairs, i);
      if key !in values {
        order := order + [key];
      }
      values := values[key := value];
    }
    assert pairs[..|parts|] == pairs;
    jar := CookieJar(order, values);
  }

  /** One more pair is one more assignment. */
  lemma AccumulateStep(pairs: seq<(string, string)>, i: nat)
    requires i < |pairs|
    ensures Accumulate(pairs[..i + 1]) == Assign(Accumulate(pairs[..i]), pairs[i].0, pairs[i].1)
  {
    assert pairs[..i + 1][..i] == pairs[..i];
  }

  /** The shape of one part: with an `=`, the key is the trimmed text before
      the first one and the value the text after it; without, the key is the
      whole trimmed part and the value is empty. */
  lemma PartShape(part: string)
    ensures var t := Trim(part);
      && ('=' !in t ==> PartKey(part) == t && PartValue(part) == "")
      && ('=' in t ==> PartKey(part) == Trim(t[..IndexOf(t, '=')]) && PartValue(part) == t[IndexOf(t, '=') + 1..])
  {
    var t := Trim(part);
    var pieces := Split(t, '=');
    assert PartKey(part) == Trim(pieces[0]) && PartValue(part) == Join(pieces[1..], '=');
    SplitAtFirst(t, '=');
    if '=' !in t {
      TrimIdempotent(part);
      assert pieces[1..] == [];
    }
  }

  /** Every key of the parsed table is already trimmed. */
  lemma {:induction false} KeysTrimmed(parts: seq<string>)
    ensures forall k :: k in Accumulate(Pairs(parts)).values ==> Trim(k) == k
  {
    forall k | k in Accumulate(Pairs(parts)).values ensures Trim(k) == k {
      KeysOfPairs(Pairs(parts), k);
      var i :| 0 <= i < |parts| && Names(Pairs(parts))[i] == k;
      TrimIdempotent(Split(Trim(parts[i]), '=')[0]);
    }
  }

  /** The names the pairs carry, in header order. */
  function Names(pairs: seq<(string, string)>): (names: seq<string>)
    ensures |names| == |pairs|
    ensures forall i :: 0 <= i < |pairs| ==> names[i] == pairs[i].0
  {
    seq(|pairs|, i requires 0 <= i < |pairs| => pairs[i].0)
  }

  /** A name is in the table exactly when some pair carries it. */
  lemma {:induction false} KeysOfPairs(pairs: seq<(string, string)>, k: string)
    ensures k in Accumulate(pairs).values <==> k in Names(pairs)
  {
    if pairs != [] {
      var init := pairs[..|pairs| - 1];
      KeysOfPairs(init, k);
      assert Names(pairs) == Names(init) + [pairs[|pairs| - 1].0];
    }
  }

  /** When a name repeats, the last pair carrying it decides its value. */
  lemma {:induction false} LastOccurrenceWins(pairs: seq<(string, string)>, i: nat)
    requires i < |pairs|
    requires forall j :: i < j < |pairs| ==> pairs[j].0 != pairs[i].0
    ensures pairs[i].0 in Accumulate(pairs).values
    ensures Accumulate(pairs).values[pairs[i].0] == pairs[i].1
  {
    if i < |pairs| - 1 {
      var init := pairs[..|pairs| - 1];
      assert init[i] == pairs[i];
      forall j | i < j < |init| ensures init[j].0 != init[i].0 {
        assert init[j] == pairs[j];
      }
      LastOccurrenceWins(init, i);
    }
  }

  /** The provider's structured session cookie: `sb-` … `-auth-token`. */
  predicate IsAuthCookieName(name: string) {
    StartsWith(name, "sb-") && EndsWith(name, "-auth-token")
  }

  /** `Object.keys(...).find(...)` for the structured session cookie. */
  function FindAuthCookie(order: seq<string>): (r: Option<string>)
    ensures r.Some? ==> r.value in order && IsAuthCookieName(r.value)
    ensures r.None? ==> forall k :: k in order ==> !IsAuthCookieName(k)
  {
    if order == [] then None
    else if IsAuthCookieName(order[0]) then Some(order[0])
    else FindAuthCookie(order[1..])
  }

  /** The first name, reading the pairs left to right, that has the
      structured-session-cookie pattern. */
  function FirstAuthName(pairs: seq<(string, string)>): Option<string> {
    if pairs == [] then None
    else if IsAuthCookieName(pairs[0].0) then Some(pairs[0].0)
    else FirstAuthName(pairs[1..])
  }

  /** The dictionary's key order makes `find` pick the structured session
      cookie that comes first in the header. */
  lemma {:induction false} FindFollowsHeaderOrder(pairs: seq<(string, string)>)
    ensures FindAuthCookie(Accumulate(pairs).order) == FirstAuthName(pairs)
  {
    if pairs != [] {
      var init, last := pairs[..|pairs| - 1], pairs[|pairs| - 1];
      var jar := Accumulate(init);
      FindFollowsHeaderOrder(init);
      assert pairs == init + [last];
      if last.0 in jar.values {
        KeysOfPairs(init, last.0);
        RepeatedNameAddsNothing(init, last);
      } else {
        FindAppend(jar.order, last.0);
        FirstAuthNameAppend(init, last);
      }
    }
  }

  /** A name seen before cannot change which matching name comes first. */
  lemma RepeatedNameAddsNothing(pairs: seq<(string, string)>, p: (string, string))
    requires p.0 in Names(pairs)
    ensures FirstAuthName(pairs + [p]) == FirstAuthName(pairs)
  {
    FirstAuthNameAppend(pairs, p);
    if FirstAuthName(pairs).None? {
      var i :| 0 <= i < |pairs| && Names(pairs)[i] == p.0;
      NoAuthNameIn(pairs, i);
    }
  }

  lemma {:induction false} FirstAuthNameAppend(pairs: seq<(string, string)>, p: (string, string))
    ensures FirstAuthName(pairs + [p]) ==
      if FirstAuthName(pairs).Some? then FirstAuthName(pairs)
      else if IsAuthCookieName(p.0) then Some(p.0) else None
  {
    if pairs == [] {
      assert [p][1..] == [];
    } else {
      assert (pairs + [p])[1..] == pairs[1..] + [p];
      FirstAuthNameAppend(pairs[1..], p);
    }
  }

  lemma {:induction false} NoAuthNameIn(pairs: seq<(string, string)>, i: nat)
    requires i < |pairs| && FirstAuthName(pairs).None?
    ensures !IsAuthCookieName(pairs[i].0)
  {
    if i > 0 {
      NoAuthNameIn(pairs[1..], i - 1);
    }
  }

  lemma {:induction false} FindAppend(order: seq<string>, k: string)
    ensures FindAuthCookie(order + [k]) ==
      if FindAuthCookie(order).Some? then FindAuthCookie(order)
      else if IsAuthCookieName(k) then Some(k) else None
  {
    if order == [] {
      assert [k][1..] == [];
    } else {
      assert (order + [k])[1..] == order[1..] + [k];
      FindAppend(order[1..], k);
    }
  }

  /** What `JSON.parse` makes of a cookie value, as far as the extractor looks:
      it throws, or it yields a value whose first array element is a string
      (`Some`) or is not (`None`, also for a non-array). */
  datatype JsonParse = Malformed | Parsed(firstString: Option<string>)

  /** The non-empty `sb-access-token` value, if there is one. */
  predicate HasAccessToken(jar: CookieJar) {
    AccessTokenCookie in jar.values && jar.values[AccessTokenCookie] != ""
  }

  /** `extractAccessToken`: the plain access-token cookie wins when it is
      non-empty; otherwise the first string of the JSON array held by the
      first structured session cookie of the header; otherwise nothing. */
  function ExtractAccessToken(header: Option<string>, parseJson: string -> JsonParse): (r: Option<string>)
    ensures var jar := CookiesOf(header);
      HasAccessToken(jar) ==> r == Some(jar.values[AccessTokenCookie])
    ensures var jar := CookiesOf(header);
      !HasAccessToken(jar) && r.Some? ==>
        && FirstAuthName(Pairs(Parts(header))).Some?
        && var name := FirstAuthName(Pairs(Parts(header))).value;
           name in jar.values && parseJson(jar.values[name]) == Parsed(r)
    ensures var jar := CookiesOf(header);
      !HasAccessToken(jar) && FirstAuthName(Pairs(Parts(header))).Some? ==>
        var name := FirstAuthName(Pairs(Parts(header))).value;
        name in jar.values && (parseJson(jar.values[name]).Parsed? && parseJson(jar.values[name]).firstString.Some? ==> r.Some?)
    ensures r == None && FirstAuthName(Pairs(Parts(header))).None? ==> !HasAccessToken(CookiesOf(header))
  {
    var jar := CookiesOf(header);
    FindFollowsHeaderOrder(Pairs(Parts(header)));
    if HasAccessToken(jar) then Some(jar.values[AccessTokenCookie])
    else
      match FindAuthCookie(jar.order)
      case None => None
      case Some(name) =>
        match parseJson(jar.values[name])
        case Parsed(Some(token)) => Some(token)
        case _ => None
  }
}
