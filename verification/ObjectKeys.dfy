/** Where objects live in the bucket, and why the keys of different streams never meet. */
module ObjectKeys {

  /** The textual form of a UUID: 36 characters, none of them a separator. */
  predicate IsUuid(s: string) {
    |s| == 36 && forall c :: c in s ==> '0' <= c <= '9' || 'a' <= c <= 'f' || c == '-'
  }

  type Uuid = s: string | IsUuid(s) witness "00000000-0000-0000-0000-000000000000"

  const NIL: Uuid := "00000000-0000-0000-0000-000000000000"

  function SourceKey(owner: Uuid, id: Uuid, nonce: Uuid): string {
    "streams/" + owner + "/videos/" + id + "_" + nonce
  }

  function HlsPrefix(id: Uuid): string {
    "processed/" + id + "/"
  }

  function PlaylistKey(id: Uuid): string {
    HlsPrefix(id) + "index.m3u8"
  }

  function ThumbKey(id: Uuid): string {
    "thumbnails/" + id + ".jpg"
  }

  /** Under the folder that holds uploaded sources. */
  predicate IsSource(key: string) {
    "streams/" <= key
  }

  /** An uploaded source of this stream, whoever owns it. */
  predicate SourceOf(key: string, id: Uuid) {
    IsSource(key) && |key| == 125 && key[52..88] == id
  }

  /** Everything stored for a stream: its source, its HLS rendition and export, its thumbnail. */
  predicate BelongsTo(key: string, id: Uuid) {
    SourceOf(key, id) || HlsPrefix(id) <= key || key == ThumbKey(id)
  }

  lemma SourceKeyNamesStream(owner: Uuid, id: Uuid, nonce: Uuid)
    ensures SourceOf(SourceKey(owner, id, nonce), id)
    ensures SourceKey(owner, id, nonce)[8..44] == owner
  {
    var key := SourceKey(owner, id, nonce);
    assert key == ("streams/" + owner + "/videos/") + (id + "_" + nonce);
    assert key[52..] == id + ("_" + nonce);
    assert key[52..88] == key[52..][..36];
    assert key[8..] == owner + ("/videos/" + id + "_" + nonce);
    assert key[8..44] == key[8..][..36];
  }

  /** A fresh nonce gives a fresh key. */
  lemma SourceKeysDiffer(owner: Uuid, id: Uuid, nonce: Uuid, other: Uuid)
    requires nonce != other
    ensures SourceKey(owner, id, nonce) != SourceKey(owner, id, other)
  {
    var front := "streams/" + owner + "/videos/" + id + "_";
    assert (front + nonce)[|front|..] == nonce && (front + other)[|front|..] == other;
  }

  lemma HlsPrefixNamesStream(key: string, id: Uuid)
    requires HlsPrefix(id) <= key
    ensures |key| >= 47 && key[..10] == "processed/" && key[10..46] == id
  {
    assert HlsPrefix(id)[..10] == "processed/";
    assert HlsPrefix(id)[10..46] == id;
    assert key[..10] == HlsPrefix(id)[..10];
    assert key[10..46] == HlsPrefix(id)[10..46];
  }

  lemma ThumbKeyNamesStream(id: Uuid)
    ensures |ThumbKey(id)| == 51 && ThumbKey(id)[..11] == "thumbnails/" && ThumbKey(id)[11..47] == id
  {
  }

  /** No object belongs to two streams, so deleting one stream's objects spares every other's. */
  lemma KeysOfStreamsAreDisjoint(key: string, a: Uuid, b: Uuid)
    requires BelongsTo(key, a) && BelongsTo(key, b)
    ensures a == b
  {
    if HlsPrefix(a) <= key {
      HlsPrefixNamesStream(key, a);
    }
    if HlsPrefix(b) <= key {
      HlsPrefixNamesStream(key, b);
    }
    ThumbKeyNamesStream(a);
    ThumbKeyNamesStream(b);
    assert IsSource(key) ==> key[0] == 's';
    assert HlsPrefix(a) <= key || HlsPrefix(b) <= key ==> key[0] == 'p';
    assert key == ThumbKey(a) || key == ThumbKey(b) ==> key[0] == 't';
  }
}
