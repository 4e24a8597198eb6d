/** The account listing of `index`: two optional substring filters, each
    applied only when the request value is non-empty, combined with AND, and
    the rows ordered by id, highest first, with no limit. */
module Listing {
  import opened Accounts

  /** `sub` occurs somewhere in `s` (the LIKE pattern "%sub%"). */
  predicate Contains(s: string, sub: string)
    decreases |s|
  {
    if sub <= s then true
    else if s == [] then false
    else Contains(s[1..], sub)
  }

  /** Contains means: `sub` is a prefix of some suffix of `s`. */
  lemma {:induction false} ContainsIff(s: string, sub: string)
    ensures Contains(s, sub) <==> exists i :: 0 <= i <= |s| && sub <= s[i..]
    decreases |s|
  {
    if sub <= s {
      assert s[0..] == s;
    } else if s == [] {
      forall i | 0 <= i <= |s| ensures !(sub <= s[i..]) {
        assert s[i..] == s;
      }
    } else {
      ContainsIff(s[1..], sub);
      if Contains(s, sub) {
        var i :| 0 <= i <= |s[1..]| && sub <= s[1..][i..];
        assert s[1..][i..] == s[i + 1..];
      } else {
        forall i | 0 <= i <= |s| ensures !(sub <= s[i..]) {
          if i > 0 {
            assert s[1..][i - 1..] == s[i..];
          } else {
            assert s[0..] == s;
          }
        }
      }
    }
  }

  /** The record passes both filters of the request. */
  predicate Matches(a: Account, name: Option<string>, email: Option<string>)
  {
    && (IsEmptyText(name) || Contains(a.fullname, name.value))
    && (IsEmptyText(email) || Contains(a.email, email.value))
  }

  /** A filter constrains only when non-empty, and then asks for its text to
      start at some position of the field; "0" counts as empty, as in PHP. */
  lemma MatchesIff(a: Account, name: Option<string>, email: Option<string>)
    ensures Matches(a, name, email) <==>
      && (IsEmptyText(name) || exists i :: 0 <= i <= |a.fullname| && name.value <= a.fullname[i..])
      && (IsEmptyText(email) || exists i :: 0 <= i <= |a.email| && email.value <= a.email[i..])
    ensures Matches(a, Some("0"), email) == Matches(a, None, email)
  {
    if !IsEmptyText(name) {
      ContainsIff(a.fullname, name.value);
    }
    if !IsEmptyText(email) {
      ContainsIff(a.email, email.value);
    }
  }

  /** The rows with ids from `top` down to 1 that pass the filters, in that order. */
  function Scan(t: Table, top: int, name: Option<string>, email: Option<string>): (rows: seq<Row>)
    ensures forall i :: 0 <= i < |rows| ==> 1 <= rows[i].id <= top
    ensures forall i, j :: 0 <= i < j < |rows| ==> rows[i].id > rows[j].id
    ensures forall r :: r in rows <==>
      1 <= r.id <= top && r.id in t && t[r.id] == r.account && Matches(r.account, name, email)
    decreases top
  {
    if top < 1 then []
    else
      var head := if top in t && Matches(t[top], name, email) then [Row(top, t[top])] else [];
      head + Scan(t, top - 1, name, email)
  }
}
