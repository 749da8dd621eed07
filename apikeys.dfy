/**
  The API-key check `checkApiKey` (server.go:71-79): the allow-list is split on
  ';' and the key must equal one of the pieces. The allow-list, which the
  source reads from the API_KEYS environment variable on every call, is a
  parameter here.
 */
module ApiKeys {

  /** `strings.Split(s, ";")`: the pieces between separators; "" splits into [""]. */
  function Split(s: string): (r: seq<string>)
    ensures |r| >= 1
    ensures forall i :: 0 <= i < |r| ==> ';' !in r[i]
  {
    if s == [] then [""]
    else
      var rest := Split(s[1..]);
      if s[0] == ';' then [""] + rest else [[s[0]] + rest[0]] + rest[1..]
  }

  /** `strings.Join(parts, ";")`. */
  function Join(parts: seq<string>): string
    requires |parts| >= 1
  {
    if |parts| == 1 then parts[0] else parts[0] + ";" + Join(parts[1..])
  }

  /** Joining the pieces gives back the allow-list. */
  lemma {:induction false} JoinSplit(s: string)
    ensures Join(Split(s)) == s
  {
    if s != [] {
      var rest := Split(s[1..]);
      JoinSplit(s[1..]);
      if s[0] == ';' {
        assert Split(s) == [""] + rest;
        assert Join(Split(s)) == "" + ";" + Join(rest);
      } else {
        var r := Split(s);
        assert r == [[s[0]] + rest[0]] + rest[1..];
        if |rest| == 1 {
          assert Join(r) == [s[0]] + rest[0];
        } else {
          assert r[1..] == rest[1..];
          assert Join(r) == [s[0]] + rest[0] + ";" + Join(rest[1..]);
        }
      }
    }
  }

  /** Splitting a join of ';'-free pieces gives back exactly those pieces. */
  lemma {:induction false} SplitJoin(parts: seq<string>)
    requires |parts| >= 1
    requires forall i :: 0 <= i < |parts| ==> ';' !in parts[i]
    ensures Split(Join(parts)) == parts
  {
    if |parts| == 1 {
      SplitPiece(parts[0]);
    } else {
      SplitJoin(parts[1..]);
      SplitPrefixed(parts[0], Join(parts[1..]));
    }
  }

  lemma {:induction false} SplitPiece(p: string)
    requires ';' !in p
    ensures Split(p) == [p]
  {
    if p != [] {
      assert p[0] != ';' && ';' !in p[1..];
      SplitPiece(p[1..]);
      assert [p[0]] + p[1..] == p;
    }
  }

  lemma {:induction false} SplitPrefixed(p: string, tail: string)
    requires ';' !in p
    ensures Split(p + ";" + tail) == [p] + Split(tail)
  {
    if p == [] {
      assert p + ";" + tail == [';'] + tail;
      assert ([';'] + tail)[1..] == tail;
    } else {
      assert (p + ";" + tail)[1..] == p[1..] + ";" + tail;
      SplitPrefixed(p[1..], tail);
      assert [p[0]] + p[1..] == p;
    }
  }

  /** The key check's verdict: `key` is one of the ';'-separated entries of the allow-list. */
  predicate Authorized(allowList: string, key: string)
  {
    key in Split(allowList)
  }

  /** `checkApiKey`: a loop over the split allow-list that returns at the first exact match. */
  method CheckApiKey(allowList: string, key: string) returns (ok: bool)
    ensures ok == Authorized(allowList, key)
  {
    var allowedKeys := Split(allowList);
    for i := 0 to |allowedKeys|
      invariant forall j :: 0 <= j < i ==> allowedKeys[j] != key
    {
      if allowedKeys[i] == key {
        return true;
      }
    }
    return false;
  }

  /** For an allow-list written as `k1;k2;...;kn`, a key passes iff it is one of the ki. */
  lemma AuthorizedJoin(keys: seq<string>, key: string)
    requires |keys| >= 1
    requires forall i :: 0 <= i < |keys| ==> ';' !in keys[i]
    ensures Authorized(Join(keys), key) <==> key in keys
  {
    SplitJoin(keys);
  }

  /** A key that contains ';' never passes, whatever the allow-list. */
  lemma SemicolonKeyRejected(allowList: string, key: string)
    requires ';' in key
    ensures !Authorized(allowList, key)
  {
    var pieces := Split(allowList);
    forall i | 0 <= i < |pieces| ensures pieces[i] != key {
      assert ';' !in pieces[i];
    }
  }

  /** An unset allow-list admits the empty key and only it. */
  lemma UnsetAllowList(key: string)
    ensures Authorized("", key) <==> key == ""
  {
    assert Split("") == [""];
  }
}
