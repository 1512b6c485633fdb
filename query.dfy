/**
  Query-string encoding of the page URL, as Go's `url.Values.Encode` does it
  for a map holding one value per key: `key=value` fields, keys in ascending
  order, joined by `&`, each key and value escaped by `QueryEscape`.
*/
module Query {
  import opened Text
  import opened Decimal

  /** Characters `QueryEscape` leaves as they are. */
  predicate Unreserved(c: char)
  {
    'a' <= c <= 'z' || 'A' <= c <= 'Z' || '0' <= c <= '9' || c == '-' || c == '_' || c == '.' || c == '~'
  }

  const HexDigits := "0123456789ABCDEF"

  /** The UTF-8 encoding of one code point. */
  function Utf8(c: char): (bytes: seq<int>)
    ensures 1 <= |bytes| <= 4
    ensures forall i :: 0 <= i < |bytes| ==> 0 <= bytes[i] < 256
  {
    var n := c as int;
    if n < 0x80 then [n]
    else if n < 0x800 then [0xC0 + n / 0x40, 0x80 + n % 0x40]
    else if n < 0x1_0000 then [0xE0 + n / 0x1000, 0x80 + n / 0x40 % 0x40, 0x80 + n % 0x40]
    else [0xF0 + n / 0x4_0000, 0x80 + n / 0x1000 % 0x40, 0x80 + n / 0x40 % 0x40, 0x80 + n % 0x40]
  }

  /** `%XX` with upper-case hex digits for every byte. */
  function PercentEncode(bytes: seq<int>): (r: string)
    requires forall i :: 0 <= i < |bytes| ==> 0 <= bytes[i] < 256
    ensures |r| == 3 * |bytes|
    ensures forall i :: 0 <= i < |r| ==> r[i] == '%' || r[i] in HexDigits
  {
    if bytes == [] then ""
    else ['%', HexDigits[bytes[0] / 16], HexDigits[bytes[0] % 16]] + PercentEncode(bytes[1..])
  }

  /** How one character appears inside an escaped query key or value. */
  function EscapeChar(c: char): (r: string)
    ensures |r| > 0
    ensures '&' !in r && '=' !in r
  {
    if Unreserved(c) then [c]
    else if c == ' ' then "+"
    else PercentEncode(Utf8(c))
  }

  /** `url.QueryEscape`. Its output never holds the field separators `&` and `=`. */
  function QueryEscape(s: string): (r: string)
    ensures '&' !in r && '=' !in r
  {
    if s == [] then "" else EscapeChar(s[0]) + QueryEscape(s[1..])
  }

  lemma {:induction false} EscapeUnreserved(s: string)
    requires forall i :: 0 <= i < |s| ==> Unreserved(s[i])
    ensures QueryEscape(s) == s
  {
    if s != [] {
      EscapeUnreserved(s[1..]);
      assert s == [s[0]] + s[1..];
    }
  }

  /** A formatted page number needs no escaping. */
  lemma EscapeDecimal(n: int)
    ensures QueryEscape(Itoa(n)) == Itoa(n)
  {
    EscapeUnreserved(Itoa(n));
  }

  /** The `key=value` field of key `k`. */
  function Field(q: map<string, string>, k: string): (f: string)
    requires k in q
    ensures |f| > 0 && '&' !in f
  {
    QueryEscape(k) + "=" + QueryEscape(q[k])
  }

  /** The fields of `q`, one per key, in ascending key order. */
  ghost function Fields(q: map<string, string>): (fs: seq<string>)
    ensures |fs| == |SortedKeys(q.Keys)|
  {
    var keys := SortedKeys(q.Keys);
    seq(|keys|, i requires 0 <= i < |keys| => Field(q, keys[i]))
  }

  /** The encoded query string. */
  ghost function Encode(q: map<string, string>): string
  {
    Join(Fields(q), '&')
  }

  /** Splitting the encoded query at `&` gives back exactly one field per key, in ascending key order. */
  lemma EncodeSplits(q: map<string, string>)
    requires |q| > 0
    ensures Split(Encode(q), '&') == Fields(q)
  {
    var keys := SortedKeys(q.Keys);
    var k :| k in q;
    assert k in keys;
    SplitJoin(Fields(q), '&');
  }

  /** The keys of `q` gathered in map order and then sorted, as `url.Values.Encode` does first. */
  method SortedKeysOf(q: map<string, string>) returns (keys: seq<string>)
    ensures keys == SortedKeys(q.Keys)
  {
    keys := [];
    var pending := q.Keys;
    while pending != {}
      invariant forall k :: k in q <==> k in pending || k in keys
      decreases pending
    {
      var k :| k in pending;
      keys := keys + [k];
      pending := pending - {k};
    }
    keys := SortStrings(keys);
    SortedUnique(keys, SortedKeys(q.Keys));
  }

  /**
    `url.Values.Encode`: writes the `key=value` field of every key in
    ascending key order, with `&` before every field but the first.
  */
  method EncodeValues(q: map<string, string>) returns (s: string)
    ensures s == Encode(q)
  {
    var keys := SortedKeysOf(q);
    ghost var fields := Fields(q);
    s := "";
    var i := 0;
    while i < |keys|
      invariant 0 <= i <= |keys|
      invariant s == Join(fields[..i], '&')
      invariant i > 0 ==> |s| > 0
    {
      var f := Field(q, keys[i]);
      assert fields[i] == f;
      JoinPrefix(fields, i, '&');
      if |s| > 0 {
        s := s + "&";
      }
      s := s + f;
      i := i + 1;
    }
    assert fields[..i] == fields;
  }

  predicate AllUnreserved(s: string)
  {
    forall i :: 0 <= i < |s| ==> Unreserved(s[i])
  }

  /** Unescaped `key=value` fields for the given keys, in their order. */
  function PlainFields(q: map<string, string>, keys: seq<string>): (fs: seq<string>)
    requires forall k :: k in keys ==> k in q
    ensures |fs| == |keys|
    ensures forall i :: 0 <= i < |keys| ==> fs[i] == keys[i] + "=" + q[keys[i]]
  {
    if keys == [] then [] else [keys[0] + "=" + q[keys[0]]] + PlainFields(q, keys[1..])
  }

  /**
    When no key or value needs escaping, the encoded query is the plain
    `key=value` fields in the given ascending key order.
  */
  lemma EncodePlain(q: map<string, string>, keys: seq<string>)
    requires StrictlySorted(keys)
    requires forall k :: k in keys <==> k in q
    requires forall k :: k in q ==> AllUnreserved(k) && AllUnreserved(q[k])
    ensures Encode(q) == Join(PlainFields(q, keys), '&')
  {
    SortedUnique(keys, SortedKeys(q.Keys));
    var fields := Fields(q);
    var plain := PlainFields(q, keys);
    forall i | 0 <= i < |keys| ensures fields[i] == plain[i] {
      assert keys[i] in keys;
      EscapeUnreserved(keys[i]);
      EscapeUnreserved(q[keys[i]]);
    }
    assert fields == plain;
  }
}
