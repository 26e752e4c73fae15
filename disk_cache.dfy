/** The persistent tier: one payload file per key plus a `.meta` sidecar
    holding the time the payload was saved, under one cache directory.
    File names come from the key by percent-encoding (section 2.1 of
    RFC 3986) every character that is not alphanumeric. */
module DiskStore {
  import opened Types

  // ---------------------------------------------------------------------
  // File names
  // ---------------------------------------------------------------------

  /** The characters `safeFileName` leaves unencoded. */
  predicate IsAlnum(c: char) {
    ('a' <= c <= 'z') || ('A' <= c <= 'Z') || ('0' <= c <= '9')
  }

  /** Upper-case hexadecimal digit for `d`. */
  function HexDigit(d: nat): (c: char)
    requires d < 16
    ensures IsAlnum(c)
  {
    if d < 10 then ('0' as int + d) as char else ('A' as int + d - 10) as char
  }

  /** The value of a hexadecimal digit of either case. */
  function HexValue(c: char): (v: Option<nat>)
    ensures v.Some? ==> v.value < 16
  {
    if '0' <= c <= '9' then Some(c as int - '0' as int)
    else if 'A' <= c <= 'F' then Some(c as int - 'A' as int + 10)
    else if 'a' <= c <= 'f' then Some(c as int - 'a' as int + 10)
    else None
  }

  /** One character of a key as it appears in the file name. */
  function EncodeChar(c: char): string
    requires c as int < 128
  {
    if IsAlnum(c) then [c]
    else ['%', HexDigit(c as int / 16), HexDigit(c as int % 16)]
  }

  /** `String.safeFileName`: alphanumerics stay, every other character
      becomes a `%XX` triplet. The result only holds alphanumerics and `%`
      (no `/`, no `.`), is never shorter than the key, and an alphanumeric
      key is its own file name. */
  function SafeFileName(key: Key): (name: string)
    ensures |name| >= |key|
    ensures forall i :: 0 <= i < |name| ==> IsAlnum(name[i]) || name[i] == '%'
    ensures (forall i :: 0 <= i < |key| ==> IsAlnum(key[i])) ==> name == key
  {
    if key == [] then []
    else
      var rest := SafeFileName(key[1..]);
      assert key == [key[0]] + key[1..];
      EncodeChar(key[0]) + rest
  }

  /** One character on its own: an alphanumeric stays, any other character
      becomes `%` and the two upper-case hexadecimal digits of its code. */
  lemma SafeFileNameOfChar(c: char)
    requires c as int < 128
    ensures SafeFileName([c]) ==
      if IsAlnum(c) then [c] else ['%', HexDigit(c as int / 16), HexDigit(c as int % 16)]
  {
    assert [c][1..] == [];
  }

  /** The name of a concatenation is the concatenation of the names: each
      character is encoded on its own, independently of its neighbours.
      With `SafeFileNameOfChar` this fixes the file name of every key. */
  lemma {:induction false} SafeFileNameConcat(a: Key, b: Key)
    ensures IsAscii(a + b)
    ensures SafeFileName(a + b) == SafeFileName(a) + SafeFileName(b)
  {
    assert IsAscii(a + b) by {
      forall i | 0 <= i < |a + b| ensures (a + b)[i] as int < 128 {
        if i >= |a| { assert (a + b)[i] == b[i - |a|]; }
      }
    }
    if a != [] {
      var tail: Key := a[1..];
      SafeFileNameConcat(tail, b);
      assert (a + b)[1..] == tail + b;
      assert (a + b)[0] == a[0];
    } else {
      assert a + b == b;
    }
  }

  /** The sidecar's name: the payload's name with the extension `meta`. */
  function MetaFileName(key: Key): string {
    SafeFileName(key) + ".meta"
  }

  /** Percent-decoding (section 2.1 of RFC 3986): every `%` must start a
      triplet of `%` and two hexadecimal digits, which stands for the
      octet they spell; every other character stands for itself. */
  function PercentDecode(s: string): (r: Option<string>)
    decreases |s|
  {
    if s == [] then Some([])
    else if s[0] == '%' then
      if |s| < 3 then None
      else
        match (HexValue(s[1]), HexValue(s[2]))
        case (Some(high), Some(low)) =>
          (match PercentDecode(s[3..])
           case Some(rest) => Some([(high * 16 + low) as char] + rest)
           case None => None)
        case _ => None
    else
      match PercentDecode(s[1..])
      case Some(rest) => Some([s[0]] + rest)
      case None => None
  }

  lemma HexDigitValue(d: nat)
    requires d < 16
    ensures HexValue(HexDigit(d)) == Some(d)
  {
  }

  /** Decoding a file name gives back the key it was made from. */
  lemma {:induction false} DecodeSafeFileName(key: Key)
    ensures PercentDecode(SafeFileName(key)) == Some(key)
  {
    if key != [] {
      var c, tail := key[0], key[1..];
      var rest := SafeFileName(tail);
      DecodeSafeFileName(tail);
      var name := SafeFileName(key);
      assert name == EncodeChar(c) + rest;
      if IsAlnum(c) {
        assert name[0] == c && name[1..] == rest;
      } else {
        HexDigitValue(c as int / 16);
        HexDigitValue(c as int % 16);
        assert name[0] == '%' && name[3..] == rest;
        assert name[1] == HexDigit(c as int / 16) && name[2] == HexDigit(c as int % 16);
        assert ((c as int / 16) * 16 + c as int % 16) as char == c;
      }
      assert key == [c] + tail;
    }
  }

  /** Distinct keys never share a payload file. */
  lemma SafeFileNameInjective(a: Key, b: Key)
    ensures SafeFileName(a) == SafeFileName(b) ==> a == b
  {
    DecodeSafeFileName(a);
    DecodeSafeFileName(b);
  }

  /** Distinct keys never share a sidecar file. */
  lemma MetaFileNameInjective(a: Key, b: Key)
    ensures MetaFileName(a) == MetaFileName(b) ==> a == b
  {
    var na, nb := SafeFileName(a), SafeFileName(b);
    if MetaFileName(a) == MetaFileName(b) {
      assert |na| == |nb|;
      assert na == MetaFileName(a)[..|na|] && nb == MetaFileName(b)[..|nb|];
      SafeFileNameInjective(a, b);
    }
  }

  /** A sidecar's name is never a payload's name, so the directory can be
      seen as two separate maps. */
  lemma MetaFileNameIsNoPayloadName(a: Key, b: Key)
    ensures MetaFileName(a) != SafeFileName(b)
  {
    var na := SafeFileName(a);
    assert MetaFileName(a)[|na|] == '.';
  }

  /** The key is its own file name exactly when it is all alphanumeric;
      any other character costs two extra characters. */
  lemma {:induction false} SafeFileNameUnchangedIff(key: Key)
    ensures SafeFileName(key) == key <==> forall i :: 0 <= i < |key| ==> IsAlnum(key[i])
  {
    if key != [] {
      var c, tail := key[0], key[1..];
      SafeFileNameUnchangedIff(tail);
      assert SafeFileName(key) == EncodeChar(c) + SafeFileName(tail);
      assert key == [c] + tail;
      if IsAlnum(c) {
        if SafeFileName(key) == key {
          assert SafeFileName(tail) == SafeFileName(key)[1..];
          assert forall i :: 0 <= i < |tail| ==> IsAlnum(tail[i]);
          assert forall i :: 0 <= i < |key| ==> IsAlnum(key[i]) by {
            forall i | 0 <= i < |key| ensures IsAlnum(key[i]) {
              if i > 0 { assert key[i] == tail[i - 1]; }
            }
          }
        }
      } else {
        assert |SafeFileName(key)| >= |key| + 2;
      }
    }
  }

  // ---------------------------------------------------------------------
  // The cache directory
  // ---------------------------------------------------------------------

  /** A sidecar's contents: the save time, or text that does not parse as
      a number. */
  datatype Meta = Stamp(savedAt: int) | Unparsable

  /** The cache directory: payload files and sidecar files by file name. */
  datatype DiskState = DiskState(payloads: map<string, Bytes>, metas: map<string, Meta>)

  /** What `get` returns and the directory it leaves behind. */
  datatype DiskRead = DiskRead(value: Option<Bytes>, after: DiskState)

  /** The directory after `save(data, key)` at time `now`. */
  function AfterSave(s: DiskState, data: Bytes, key: Key, now: int): DiskState {
    DiskState(s.payloads[SafeFileName(key) := data], s.metas[MetaFileName(key) := Stamp(now)])
  }

  /** A TTL is configured, the sidecar holds a readable time, and the entry
      is strictly older than the TTL. */
  predicate Expired(s: DiskState, key: Key, now: int, ttl: Option<int>) {
    && ttl.Some?
    && MetaFileName(key) in s.metas
    && s.metas[MetaFileName(key)].Stamp?
    && now - s.metas[MetaFileName(key)].savedAt > ttl.value
  }

  /** `get(key)` at time `now` with the configured TTL: an expired entry
      loses both files and misses; otherwise the payload, if any, is read.
      A read never yields bytes other than the key's payload and never
      creates a file. */
  function Read(s: DiskState, key: Key, now: int, ttl: Option<int>): (r: DiskRead)
    ensures r.value.Some? ==> SafeFileName(key) in s.payloads && r.value.value == s.payloads[SafeFileName(key)]
    ensures r.after.payloads.Keys <= s.payloads.Keys && r.after.metas.Keys <= s.metas.Keys
    ensures r.after != s ==> r.value.None?
  {
    if Expired(s, key, now, ttl) then
      DiskRead(None, DiskState(s.payloads - {SafeFileName(key)}, s.metas - {MetaFileName(key)}))
    else
      DiskRead(Lookup(s.payloads, SafeFileName(key)), s)
  }

  /** The two files that belong to a key. */
  function EntryOf(s: DiskState, key: Key): (Option<Bytes>, Option<Meta>) {
    (Lookup(s.payloads, SafeFileName(key)), Lookup(s.metas, MetaFileName(key)))
  }

  /** Saving and then reading within the TTL (or with no TTL) gives back the
      saved bytes and deletes nothing. */
  lemma SaveThenRead(s: DiskState, data: Bytes, key: Key, savedAt: int, now: int, ttl: Option<int>)
    requires ttl.None? || now - savedAt <= ttl.value
    ensures Read(AfterSave(s, data, key, savedAt), key, now, ttl) == DiskRead(Some(data), AfterSave(s, data, key, savedAt))
  {
  }

  /** Saving and then reading later than the TTL misses and removes both
      files of the key. */
  lemma SaveThenReadExpired(s: DiskState, data: Bytes, key: Key, savedAt: int, now: int, ttl: Option<int>)
    requires ttl.Some? && now - savedAt > ttl.value
    ensures var r := Read(AfterSave(s, data, key, savedAt), key, now, ttl);
            r.value.None? && EntryOf(r.after, key) == (None, None)
  {
  }

  /** Without a TTL a read is a plain lookup that deletes nothing. */
  lemma ReadWithoutTtl(s: DiskState, key: Key, now: int)
    ensures Read(s, key, now, None) == DiskRead(Lookup(s.payloads, SafeFileName(key)), s)
  {
  }

  /** With a TTL and a readable stamp, an entry strictly older than the TTL
      is deleted and misses; an entry exactly as old as the TTL, or younger,
      is still a hit. */
  lemma ReadWithStamp(s: DiskState, key: Key, now: int, ttl: int, savedAt: int)
    requires MetaFileName(key) in s.metas && s.metas[MetaFileName(key)] == Stamp(savedAt)
    ensures now - savedAt > ttl ==>
      Read(s, key, now, Some(ttl)).value.None? && EntryOf(Read(s, key, now, Some(ttl)).after, key) == (None, None)
    ensures now - savedAt <= ttl ==>
      Read(s, key, now, Some(ttl)) == DiskRead(Lookup(s.payloads, SafeFileName(key)), s)
  {
  }

  /** A missing or unreadable sidecar means "no expiry": the payload is
      returned and nothing is deleted. */
  lemma ReadWithoutStamp(s: DiskState, key: Key, now: int, ttl: Option<int>)
    requires MetaFileName(key) !in s.metas || s.metas[MetaFileName(key)] == Unparsable
    ensures Read(s, key, now, ttl) == DiskRead(Lookup(s.payloads, SafeFileName(key)), s)
  {
  }

  /** Saving a key again overwrites the payload and the save time. */
  lemma ResaveOverwrites(s: DiskState, d1: Bytes, d2: Bytes, key: Key, t1: int, t2: int)
    ensures AfterSave(AfterSave(s, d1, key, t1), d2, key, t2) == AfterSave(s, d2, key, t2)
  {
  }

  /** Saving or reading a key leaves every other key's files as they were. */
  lemma OtherKeysUntouched(s: DiskState, data: Bytes, key: Key, other: Key, now: int, ttl: Option<int>)
    requires other != key
    ensures EntryOf(AfterSave(s, data, key, now), other) == EntryOf(s, other)
    ensures EntryOf(Read(s, key, now, ttl).after, other) == EntryOf(s, other)
  {
    SafeFileNameInjective(key, other);
    MetaFileNameInjective(key, other);
  }

  /** The disk cache: the cache directory's payload and sidecar files.
      Failures to create the directory or to write a file are ignored by
      the Swift code and are not modelled. */
  class DiskCache {
    var payloads: map<string, Bytes>
    var metas: map<string, Meta>

    function State(): DiskState
      reads this
    {
      DiskState(payloads, metas)
    }

    /** The directory as it survived from earlier runs. */
    constructor (persisted: DiskState)
      ensures State() == persisted
    {
      payloads := persisted.payloads;
      metas := persisted.metas;
    }

    /** `save(data, forKey: key)` at time `now`: writes the payload, then
      the sidecar with the save time. */
    method Save(data: Bytes, key: Key, now: int)
      modifies this
      ensures State() == AfterSave(old(State()), data, key, now)
    {
      var fileName := SafeFileName(key);
      payloads := payloads[fileName := data];
      metas := metas[MetaFileName(key) := Stamp(now)];
    }

    /** `get(forKey: key)` at time `now`, with the TTL the loader is
        configured with. */
    method Get(key: Key, now: int, ttl: Option<int>) returns (r: Option<Bytes>)
      modifies this
      ensures DiskRead(r, State()) == Read(old(State()), key, now, ttl)
    {
      var fileName, metaName := SafeFileName(key), MetaFileName(key);
      if ttl.Some? && metaName in metas && metas[metaName].Stamp? {
        if now - metas[metaName].savedAt > ttl.value {
          payloads := payloads - {fileName};
          metas := metas - {metaName};
          return None;
        }
      }
      r := if fileName in payloads then Some(payloads[fileName]) else None;
    }
  }
}
