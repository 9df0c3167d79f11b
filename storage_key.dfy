/**
 * Storage-key derivation of `_write_to_db`: a timestamp, then a hostname,
 * each appended only once it has been extracted and encoded, then the
 * per-item random suffix, all joined with '-'.
 */
module StorageKey {
  import opened JsonValue

  /** `'-'.join(parts)` */
  function Join(parts: seq<string>): string
  {
    if |parts| == 0 then ""
    else if |parts| == 1 then parts[0]
    else parts[0] + "-" + Join(parts[1..])
  }

  /** `data['beat']` must succeed before `data['@timestamp']` is looked up;
      the timestamp must then encode. */
  function Timestamp(data: Json): Option<string>
  {
    if Member(data, "beat").None? then None
    else if Member(data, "@timestamp").None? then None
    else Encoded(Member(data, "@timestamp").value)
  }

  /** `beat['hostname']`, encoded. */
  function Hostname(data: Json): Option<string>
  {
    if Member(data, "beat").None? then None
    else if Member(Member(data, "beat").value, "hostname").None? then None
    else Encoded(Member(Member(data, "beat").value, "hostname").value)
  }

  /** The list `key` at the point the suffix has been appended. The bare
      `except: pass` keeps whatever was appended before the first failure. */
  function KeyParts(data: Json, suffix: string): seq<string>
  {
    match Timestamp(data)
    case None => [suffix]
    case Some(ts) =>
      match Hostname(data)
      case None => [ts, suffix]
      case Some(host) => [ts, host, suffix]
  }

  /** The key under which one record is stored. There are three shapes,
      chosen by how far the extraction got. */
  function DeriveKey(data: Json, suffix: string): string
  {
    Join(KeyParts(data, suffix))
  }

  /** The three shapes of a key, and that it always ends with the suffix. */
  lemma KeyShapes(data: Json, suffix: string)
    ensures Timestamp(data).None? ==> DeriveKey(data, suffix) == suffix
    ensures Timestamp(data).Some? && Hostname(data).None? ==>
              DeriveKey(data, suffix) == Timestamp(data).value + "-" + suffix
    ensures Timestamp(data).Some? && Hostname(data).Some? ==>
              DeriveKey(data, suffix) == Timestamp(data).value + "-" + Hostname(data).value + "-" + suffix
    ensures |suffix| <= |DeriveKey(data, suffix)|
    ensures DeriveKey(data, suffix)[|DeriveKey(data, suffix)| - |suffix|..] == suffix
  {
    var parts := KeyParts(data, suffix);
    assert |parts| == 2 ==> parts[1..] == [suffix] && Join(parts[1..]) == suffix;
    assert |parts| == 3 ==> parts[1..][1..] == [suffix] && Join(parts[1..]) == parts[1] + "-" + suffix;
  }

  /** The text of the key in front of the suffix: empty, or ending in '-'. */
  function KeyPrefix(data: Json): string
  {
    match Timestamp(data)
    case None => ""
    case Some(ts) =>
      match Hostname(data)
      case None => ts + "-"
      case Some(host) => ts + "-" + host + "-"
  }

  predicate NoSeparator(s: string)
  {
    forall i :: 0 <= i < |s| ==> s[i] != '-'
  }

  /** The form of `uuid.uuid1().hex`: 32 lower-case hexadecimal digits. */
  predicate IsHexId(s: string)
  {
    |s| == 32 && forall i :: 0 <= i < |s| ==> s[i] in "0123456789abcdef"
  }

  lemma HexIdHasNoSeparator(s: string)
    requires IsHexId(s)
    ensures NoSeparator(s)
  {
    forall i | 0 <= i < |s| ensures s[i] != '-' {
      assert s[i] in "0123456789abcdef";
    }
  }

  /** The key is the prefix followed by the suffix, whatever the record. */
  lemma KeyIsPrefixThenSuffix(data: Json, suffix: string)
    ensures DeriveKey(data, suffix) == KeyPrefix(data) + suffix
    ensures KeyPrefix(data) == [] || KeyPrefix(data)[|KeyPrefix(data)| - 1] == '-'
  {
    KeyShapes(data, suffix);
  }

  /** A separator in front of a separator-free suffix lies in the prefix. */
  lemma SeparatorInPrefix(p: string, s: string, k: nat)
    requires NoSeparator(s) && k < |p + s| && (p + s)[k] == '-'
    ensures k < |p|
  {
  }

  /** Two strings that each end in a separator-free suffix after a prefix
      that is empty or ends in '-' determine that suffix. */
  lemma {:induction false} SuffixAfterLastSeparator(p1: string, s1: string, p2: string, s2: string)
    requires p1 == [] || p1[|p1| - 1] == '-'
    requires p2 == [] || p2[|p2| - 1] == '-'
    requires NoSeparator(s1) && NoSeparator(s2)
    requires p1 + s1 == p2 + s2
    ensures s1 == s2
  {
    // the separator ending each prefix lies within the other prefix
    if p2 != [] {
      assert (p2 + s2)[|p2| - 1] == '-';
      SeparatorInPrefix(p1, s1, |p2| - 1);
    }
    if p1 != [] {
      assert (p1 + s1)[|p1| - 1] == '-';
      SeparatorInPrefix(p2, s2, |p1| - 1);
    }
    assert |p1| == |p2|;
    assert s1 == (p1 + s1)[|p1|..];
    assert s2 == (p2 + s2)[|p2|..];
  }

  /** Keys built on separator-free suffixes (such as the hex form of a
      uuid) are equal only if their suffixes are: distinct suffixes give
      distinct keys, whatever the timestamps and hostnames. */
  lemma {:induction false} KeyDeterminesSuffix(d1: Json, s1: string, d2: Json, s2: string)
    requires NoSeparator(s1) && NoSeparator(s2)
    requires DeriveKey(d1, s1) == DeriveKey(d2, s2)
    ensures s1 == s2
  {
    KeyIsPrefixThenSuffix(d1, s1);
    KeyIsPrefixThenSuffix(d2, s2);
    SuffixAfterLastSeparator(KeyPrefix(d1), s1, KeyPrefix(d2), s2);
  }

  /** Two items whose timestamp and hostname are identical still get
      different keys when their suffixes differ, separator or not. */
  lemma {:induction false} SameFieldsDistinctKeys(d1: Json, d2: Json, s1: string, s2: string)
    requires Timestamp(d1) == Timestamp(d2) && Hostname(d1) == Hostname(d2)
    requires s1 != s2
    ensures DeriveKey(d1, s1) != DeriveKey(d2, s2)
  {
    KeyIsPrefixThenSuffix(d1, s1);
    KeyIsPrefixThenSuffix(d2, s2);
    var p := KeyPrefix(d1);
    assert KeyPrefix(d2) == p;
    assert (p + s1)[|p|..] == s1 && (p + s2)[|p|..] == s2;
  }

  /** The key is the bare suffix exactly when the first stage fails
      (no 'beat', no '@timestamp', or a timestamp that does not encode). */
  lemma BareSuffixIffNoTimestamp(data: Json, suffix: string)
    ensures DeriveKey(data, suffix) == suffix <==> Timestamp(data).None?
  {
    KeyShapes(data, suffix);
    if Timestamp(data).Some? {
      assert |DeriveKey(data, suffix)| > |suffix|;
    }
  }

  /** The key has exactly one more '-'-separated part after the timestamp
      (the suffix) exactly when the hostname stage fails after the
      timestamp stage succeeded. */
  lemma TimestampOnlyIffNoHostname(data: Json, suffix: string)
    requires Timestamp(data).Some?
    ensures DeriveKey(data, suffix) == Timestamp(data).value + "-" + suffix <==> Hostname(data).None?
  {
    KeyShapes(data, suffix);
    var ts := Timestamp(data).value;
    if Hostname(data).Some? {
      assert |DeriveKey(data, suffix)| > |ts + "-" + suffix|;
    }
  }
}
