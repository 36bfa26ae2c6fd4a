/**
  The display helpers of the contact card: the initials shown in the avatar
  and the one-line address (city and state) with the rule for showing it.
  The address formatting is stated for any list of address parts, so the
  contact detail view reuses it with its five parts.
 */
module ContactCard {
  import opened Wrappers
  import opened Js
  import opened JsText
  import opened Seqs

  /** A name part that is neither absent nor a string has no `charAt`. */
  predicate NoCharAt(v: JsValue) {
    !Nullish(v) && !v.Str?
  }

  /** `v?.charAt(0) || ""`: the first character of a string name part, and
      nothing for an absent or empty one; any other value throws a TypeError. */
  function PartInitial(v: JsValue): (r: Result<string, Exception>)
    ensures r.Failure? <==> NoCharAt(v)
    ensures r.Failure? ==> r.error == TypeErrorThrown
    ensures r.Success? ==> |r.value| <= 1
    ensures v.Str? && v.s != "" ==> r == Success([v.s[0]])
    ensures Nullish(v) || v == Str("") ==> r == Success("")
  {
    if Nullish(v) then Success("")
    else if v.Str? then Success(FirstChar(v.s))
    else Failure(TypeErrorThrown)
  }

  /** `getInitials(firstName, lastName)`: the upper-cased first characters of
      both name parts; a missing or empty part contributes nothing, and a part
      that is not a string makes the call throw. */
  function Initials(first: JsValue, last: JsValue): (r: Result<string, Exception>)
    ensures r.Failure? <==> NoCharAt(first) || NoCharAt(last)
    ensures r.Failure? ==> r.error == TypeErrorThrown
    ensures r.Success? ==> |r.value| <= 2 && forall i :: 0 <= i < |r.value| ==> !('a' <= r.value[i] <= 'z')
    ensures first.Str? && first.s != "" && last.Str? && last.s != "" ==>
              r.Success? && r.value == [UpperChar(first.s[0]), UpperChar(last.s[0])]
    ensures (Nullish(first) || first == Str("")) && last.Str? && last.s != "" ==>
              r.Success? && r.value == [UpperChar(last.s[0])]
    ensures first.Str? && first.s != "" && (Nullish(last) || last == Str("")) ==>
              r.Success? && r.value == [UpperChar(first.s[0])]
    ensures (Nullish(first) || first == Str("")) && (Nullish(last) || last == Str("")) ==>
              r.Success? && r.value == ""
  {
    match PartInitial(first)
    case Failure(e) => Failure(e)
    case Success(a) =>
      match PartInitial(last)
      case Failure(e) => Failure(e)
      case Success(b) => Success(Upper(a + b))
  }

  /** The values of the listed parts of an address, in the listed order. */
  function PartsOf(address: Record, keys: seq<string>): (r: seq<JsValue>)
    ensures |r| == |keys|
    ensures forall i :: 0 <= i < |keys| ==> r[i] == Get(address, keys[i])
  {
    seq(|keys|, i requires 0 <= i < |keys| => Get(address, keys[i]))
  }

  /** The text `join` gives each element. */
  function Texts(vs: seq<JsValue>): (r: seq<string>)
    ensures |r| == |vs|
    ensures forall i :: 0 <= i < |vs| ==> r[i] == ToString(vs[i])
  {
    seq(|vs|, i requires 0 <= i < |vs| => ToString(vs[i]))
  }

  /** `if (!address) return ""; [address.k1, …].filter(Boolean).join(", ")` */
  function FormatParts(address: JsValue, keys: seq<string>): (r: string)
    ensures !Truthy(address) ==> r == ""
  {
    if !Truthy(address) then ""
    else Join(Texts(Filter(PartsOf(OwnProps(address), keys), Truthy)), ", ")
  }

  /** The card's `formatAddress`: city, then state. */
  function FormatAddress(address: JsValue): string {
    FormatParts(address, ["city", "state"])
  }

  /** The address row is shown only when the formatted address is not empty. */
  predicate AddressShown(address: JsValue) {
    Truthy(address) && FormatAddress(address) != ""
  }

  /** Joining with a non-empty separator gives "" only for no parts or for a
      single empty part. */
  lemma {:induction false} JoinEmpty(parts: seq<string>, sep: string)
    requires sep != ""
    ensures Join(parts, sep) == "" <==> parts == [] || parts == [""]
  {
    if |parts| >= 2 {
      assert |Join(parts, sep)| >= |sep|;
    }
  }

  /** An address whose parts are strings (or absent) formats to "" exactly
      when it is falsy or none of the listed parts is a non-empty string. */
  lemma FormatPartsEmptyIff(address: JsValue, keys: seq<string>)
    requires forall k :: k in keys ==> Get(OwnProps(address), k).Str? || Nullish(Get(OwnProps(address), k))
    ensures FormatParts(address, keys) == "" <==>
              !Truthy(address) || forall k :: k in keys ==> !Truthy(Get(OwnProps(address), k))
  {
    if Truthy(address) {
      var parts := PartsOf(OwnProps(address), keys);
      var kept := Filter(parts, Truthy);
      JoinEmpty(Texts(kept), ", ");
      FilterEmpty(parts, Truthy);
      if kept != [] {
        assert Truthy(kept[0]);
        FilterMembership(parts, Truthy, kept[0]);
        var i :| 0 <= i < |parts| && parts[i] == kept[0];
        assert keys[i] in keys;
        assert Texts(kept)[0] != "";
      }
      if exists k :: k in keys && Truthy(Get(OwnProps(address), k)) {
        var k :| k in keys && Truthy(Get(OwnProps(address), k));
        var i :| 0 <= i < |keys| && keys[i] == k;
        assert Truthy(parts[i]);
      }
    }
  }

  /** With city and state given as strings, the line is "city, state", or
      whichever of the two is not empty, or "". */
  lemma CityAndState(fields: Record, city: string, state: string)
    ensures var line := FormatAddress(Obj(fields["city" := Str(city)]["state" := Str(state)]));
      && (city != "" && state != "" ==> line == city + ", " + state)
      && (city != "" && state == "" ==> line == city)
      && (city == "" && state != "" ==> line == state)
      && (city == "" && state == "" ==> line == "")
  {
    var address := fields["city" := Str(city)]["state" := Str(state)];
    var parts := PartsOf(address, ["city", "state"]);
    assert parts == [Str(city), Str(state)];
    assert parts[1..] == [Str(state)];
    assert parts[1..][1..] == [];
    if city != "" && state != "" {
      assert Filter(parts, Truthy) == [Str(city), Str(state)];
      assert Texts([Str(city), Str(state)]) == [city, state];
      assert Join([city, state], ", ") == Join([city], ", ") + ", " + state;
    }
  }

  /** The row is shown exactly when the city or the state is a non-empty string. */
  lemma AddressShownIff(fields: Record, city: string, state: string)
    ensures AddressShown(Obj(fields["city" := Str(city)]["state" := Str(state)])) <==> city != "" || state != ""
  {
    CityAndState(fields, city, state);
  }
}
