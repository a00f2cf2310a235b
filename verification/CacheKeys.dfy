/** `CacheManager.make_key` and the string conventions that the key index depends on (core/cache.py). */
module CacheKeys {
  import opened JsonText
  import opened Text

  const INDEX_KEY_SUFFIX := "keys"
  const LISTING_SEARCH := "listings:search"

  // ----- make_key -----

  /** A single short part without blanks is used as it is. */
  predicate Verbatim(parts: seq<string>) {
    |parts| == 1 && |parts[0]| <= 64 && ' ' !in parts[0]
  }

  /** The first 32 hexadecimal digits of the digest of the payload. */
  function Digest(hash: string -> string, parts: seq<string>): string {
    var hex := hash(JsonDumps(parts));
    if |hex| <= 32 then hex else hex[..32]
  }

  function Suffix(hash: string -> string, parts: seq<string>): string {
    if Verbatim(parts) then parts[0] else Digest(hash, parts)
  }

  function MakeKey(hash: string -> string, namespace: string, parts: seq<string>): string {
    namespace + ":" + Suffix(hash, parts)
  }

  predicate IsHex(s: string) {
    forall c | c in s :: '0' <= c <= '9' || 'a' <= c <= 'f'
  }

  /** What is assumed of SHA-256: a digest is a string of 64 hexadecimal digits. Nothing about collisions. */
  ghost predicate HexDigests(hash: string -> string) {
    forall payload :: |hash(payload)| == 64 && IsHex(hash(payload))
  }

  lemma DigestIsHex(hash: string -> string, parts: seq<string>)
    requires HexDigests(hash)
    ensures |Digest(hash, parts)| == 32 && IsHex(Digest(hash, parts))
    ensures Digest(hash, parts) != INDEX_KEY_SUFFIX
  {
    var hex := hash(JsonDumps(parts));
    assert |hex| == 64 && IsHex(hex);
    assert forall c | c in hex[..32] :: c in hex;
  }

  function IndexKey(namespace: string): string {
    namespace + ":" + INDEX_KEY_SUFFIX
  }

  /** The namespace `_register_key` reads off a key. */
  function NamespaceOf(key: string): string {
    if ':' in key then key[..LastIndex(key, ':')] else key
  }

  predicate IsIndexKey(key: string) {
    key == IndexKey(NamespaceOf(key))
  }

  lemma NamespaceOfSuffixed(namespace: string, suffix: string)
    requires ':' !in suffix
    ensures NamespaceOf(namespace + ":" + suffix) == namespace
  {
    var key := namespace + ":" + suffix;
    assert key[|namespace|] == ':';
    var i := LastIndex(key, ':');
    assert key == key[..i] + [':'] + key[i + 1..];
    LastSplit(key[..i], key[i + 1..], namespace, suffix, ':');
  }

  lemma NamespaceOfIndexKey(namespace: string)
    ensures NamespaceOf(IndexKey(namespace)) == namespace && IsIndexKey(IndexKey(namespace))
  {
    NamespaceOfSuffixed(namespace, INDEX_KEY_SUFFIX);
  }

  /** A namespace comes back from a key built on it exactly when what follows it holds no colon. */
  lemma SuffixDecides(namespace: string, suffix: string)
    ensures NamespaceOf(namespace + ":" + suffix) == namespace <==> ':' !in suffix
  {
    var key := namespace + ":" + suffix;
    if ':' !in suffix {
      NamespaceOfSuffixed(namespace, suffix);
    } else {
      var j :| 0 <= j < |suffix| && suffix[j] == ':';
      assert key[|namespace| + 1 + j] == ':';
      var i := LastIndex(key, ':');
      assert i >= |namespace| + 1 + j;
    }
  }

  /** A key without a colon is its own namespace. */
  lemma NamespaceOfBareKey(key: string)
    requires ':' !in key
    ensures NamespaceOf(key) == key && IndexKey(key) == key + ":keys"
  {
  }

  /** Keys stay short: a part of at most 64 characters without blanks is used as it is, all else gives 32 characters. */
  lemma KeysStayShort(hash: string -> string, namespace: string, parts: seq<string>)
    requires HexDigests(hash)
    ensures var key := MakeKey(hash, namespace, parts);
      && |key| <= |namespace| + 65 && key[..|namespace| + 1] == namespace + ":"
      && (if |parts| == 1 && |parts[0]| <= 64 && ' ' !in parts[0] then key[|namespace| + 1..] == parts[0]
          else |key| == |namespace| + 33 && key[|namespace| + 1..] == hash(JsonDumps(parts))[..32])
  {
    DigestIsHex(hash, parts);
    assert |hash(JsonDumps(parts))| == 64;
  }

  /** `_register_key` recovers the namespace given to `make_key` unless a part used verbatim holds a colon. */
  lemma NamespaceRecovery(hash: string -> string, namespace: string, parts: seq<string>)
    requires HexDigests(hash)
    ensures NamespaceOf(MakeKey(hash, namespace, parts)) == namespace <==> !(Verbatim(parts) && ':' in parts[0])
  {
    DigestIsHex(hash, parts);
    SuffixDecides(namespace, Suffix(hash, parts));
    hide NamespaceOf, Digest;
  }

  predicate EndsInReserved(part: string) {
    part == INDEX_KEY_SUFFIX || (|part| >= 5 && part[|part| - 5..] == ":" + INDEX_KEY_SUFFIX)
  }

  lemma ReservedHasColon(part: string)
    requires EndsInReserved(part)
    ensures part == INDEX_KEY_SUFFIX || ':' in part
  {
    if part != INDEX_KEY_SUFFIX {
      assert part[|part| - 5] == part[|part| - 5..][0] == ':';
    }
  }

  lemma IndexKeyEnds(namespace: string)
    ensures var key := IndexKey(namespace);
      && |key| >= 5 && key[|key| - 5..] == ":" + INDEX_KEY_SUFFIX
      && forall i | |key| - 4 <= i < |key| :: key[i] != ':'
  {
    var key := IndexKey(namespace);
    assert key[|key| - 5..] == ":keys";
    assert forall i | |key| - 4 <= i < |key| :: key[i] == ":keys"[i - (|key| - 5)];
  }

  lemma EndOfKey(namespace: string, suffix: string)
    ensures (exists n :: IndexKey(n) == namespace + ":" + suffix) <==> EndsInReserved(suffix)
  {
    var key := namespace + ":" + suffix;
    if EndsInReserved(suffix) {
      var n := if suffix == INDEX_KEY_SUFFIX then namespace else namespace + ":" + suffix[..|suffix| - 5];
      assert suffix == INDEX_KEY_SUFFIX || suffix == suffix[..|suffix| - 5] + ":" + INDEX_KEY_SUFFIX;
      assert IndexKey(n) == key;
    }
    if n :| IndexKey(n) == key {
      IndexKeyEnds(n);
      hide IndexKey;
      assert key[|namespace|] == ':' && |suffix| >= 4;
      if |suffix| == 4 {
        assert suffix == key[|key| - 5..][1..];
      } else {
        assert suffix[|suffix| - 5..] == key[|key| - 5..];
      }
    }
  }

  /** A key is the index key of some namespace exactly when a part used verbatim is the reserved word or ends in it. */
  lemma IndexKeyClash(hash: string -> string, namespace: string, parts: seq<string>)
    requires HexDigests(hash)
    ensures (exists n :: IndexKey(n) == MakeKey(hash, namespace, parts)) <==> Verbatim(parts) && EndsInReserved(parts[0])
  {
    DigestIsHex(hash, parts);
    if EndsInReserved(Digest(hash, parts)) {
      ReservedHasColon(Digest(hash, parts));
    }
    EndOfKey(namespace, Suffix(hash, parts));
    hide IndexKey, Digest;
  }

  /** Such parts exist: the key leaves its namespace, and is the index key of another one. */
  lemma ColonPart(hash: string -> string, namespace: string)
    ensures NamespaceOf(MakeKey(hash, namespace, ["x:y"])) == namespace + ":x"
    ensures MakeKey(hash, namespace, ["x:keys"]) == IndexKey(namespace + ":x")
  {
    assert Verbatim(["x:y"]) && Verbatim(["x:keys"]);
    NamespaceOfSuffixed(namespace + ":x", "y");
    assert namespace + ":" + "x:y" == namespace + ":x" + ":" + "y";
    assert namespace + ":" + "x:keys" == namespace + ":x" + ":" + "keys";
  }

  /** The reserved word can be reached: a data key may coincide with the index of its own namespace. */
  lemma ReservedPart(hash: string -> string, namespace: string)
    ensures MakeKey(hash, namespace, [INDEX_KEY_SUFFIX]) == IndexKey(namespace)
  {
    assert Verbatim([INDEX_KEY_SUFFIX]);
  }

  /**
   * Keys of one namespace whose parts all hold an equals sign: a verbatim key never meets a hashed
   * one, so two keys agree exactly when the parts agree or two hashed payloads collide.
   */
  lemma KeyEquality(hash: string -> string, namespace: string, p: seq<string>, q: seq<string>)
    requires HexDigests(hash)
    requires forall x | x in p || x in q :: '=' in x
    ensures MakeKey(hash, namespace, p) == MakeKey(hash, namespace, q)
       <==> p == q || (!Verbatim(p) && !Verbatim(q) && Digest(hash, p) == Digest(hash, q))
  {
    var s, t := Suffix(hash, p), Suffix(hash, q);
    var k, l := MakeKey(hash, namespace, p), MakeKey(hash, namespace, q);
    assert s == k[|namespace| + 1..] && t == l[|namespace| + 1..];
    DigestIsHex(hash, p);
    DigestIsHex(hash, q);
    if Verbatim(p) && Verbatim(q) && s == t {
      assert p == [p[0]] && q == [q[0]];
    } else if Verbatim(p) {
      assert '=' in s;
    } else if Verbatim(q) {
      assert '=' in t;
    }
  }
}
