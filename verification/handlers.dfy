/**
 The pure argument preparation inside two action handlers: `send_sms` splits an
 `smsto:` payload into phone number and message, `open_in_map` splits a `geo:`
 payload into latitude and longitude and builds a map search address. The
 handlers' effects (printing, opening a browser) are not modelled.
 */
module Handlers {
  import opened Wrappers
  import opened Strings

  datatype SmsArgs = SmsArgs(phone: string, message: string)

  /** `send_sms` as written: delete every `smsto:` anywhere in the payload, then
      split at the first `:`; the message is empty when there is no `:`. */
  function SmsFields(sms: string): (r: SmsArgs)
    ensures ':' !in r.phone
    ensures |r.phone| + |r.message| <= |sms|
  {
    var (phone, rest) := SplitOnce(RemoveAll(sms, "smsto:"), ':');
    SmsArgs(phone, rest.GetOr(""))
  }

  /** `split(sep, 1)` of a text whose first piece holds no separator. */
  lemma {:induction false} SplitOnceAt(a: string, b: string, sep: char)
    requires sep !in a
    ensures SplitOnce(a + [sep] + b, sep) == (a, Some(b))
    decreases |a|
  {
    if |a| > 0 {
      assert (a + [sep] + b)[1..] == a[1..] + [sep] + b;
      SplitOnceAt(a[1..], b, sep);
      assert [a[0]] + a[1..] == a;
    } else {
      assert a + [sep] + b == [sep] + b;
    }
  }

  /** `split(sep, 1)` of a text without the separator. */
  lemma SplitOnceNone(a: string, sep: char)
    requires sep !in a
    ensures SplitOnce(a, sep) == (a, None)
  {
  }

  /** The payload shape `smsto:<phone>:<message>` comes apart into its phone and
      message, provided `smsto:` occurs nowhere after the scheme (the as-written
      handler deletes such occurrences too). */
  lemma SmsRoundTrip(phone: string, message: string)
    requires ':' !in phone
    requires !Contains(phone + ":" + message, "smsto:")
    ensures SmsFields("smsto:" + phone + ":" + message) == SmsArgs(phone, message)
  {
    var text := phone + ":" + message;
    assert "smsto:" + phone + ":" + message == "smsto:" + text;
    RemoveAllLeading("smsto:", text);
    RemoveAllIdentity(text, "smsto:");
    SplitOnceAt(phone, message, ':');
  }

  /** A text containing `sub` contains each of `sub`'s characters. */
  lemma ContainsHasChars(s: string, sub: string, k: nat)
    requires k < |sub|
    ensures Contains(s, sub) ==> sub[k] in s
  {
    if Contains(s, sub) {
      var i :| 0 <= i <= |s| - |sub| && StartsWith(s[i..], sub);
      assert s[i..][..|sub|][k] == s[i + k];
    }
  }

  /** Without a `:` the whole remaining text is the phone number. */
  lemma SmsWithoutMessage(phone: string)
    requires ':' !in phone
    ensures SmsFields("smsto:" + phone) == SmsArgs(phone, "")
  {
    RemoveAllLeading("smsto:", phone);
    ContainsHasChars(phone, "smsto:", 5);
    RemoveAllIdentity(phone, "smsto:");
    SplitOnceNone(phone, ':');
  }

  /** A message that itself holds `smsto:` loses it: the as-written handler
      reads `smsto:1:smsto:` as phone `1` with an empty message. */
  lemma SmsSchemeInMessageIsLost()
    ensures SmsFields("smsto:1:smsto:") == SmsArgs("1", "")
  {
    var s := "smsto:1:smsto:";
    assert s == "smsto:" + "1:smsto:";
    RemoveAllLeading("smsto:", "1:smsto:");
    var t := "1:smsto:";
    assert t[..6][0] != "smsto:"[0];
    assert t[1..] == ":smsto:";
    assert t[1..][..6][0] != "smsto:"[0];
    assert t[1..][1..] == "smsto:";
    RemoveAllLeading("smsto:", "");
    assert "smsto:" + "" == "smsto:";
    assert RemoveAll(t, "smsto:") == "1:";
    SplitOnceAt("1", "", ':');
    assert "1" + [':'] + "" == "1:";
  }

  /** The handler with only the leading scheme removed (Python's `removeprefix`). */
  function StripScheme(sms: string): (r: string)
    ensures StartsWith(sms, "smsto:") ==> sms == "smsto:" + r
    ensures !StartsWith(sms, "smsto:") ==> r == sms
  {
    if StartsWith(sms, "smsto:") then sms[6..] else sms
  }

  /** `send_sms` with the scheme removed only where it is a prefix, so the message
      text is kept verbatim. */
  function SmsFieldsPrefix(sms: string): (r: SmsArgs)
    ensures ':' !in r.phone
  {
    var (phone, rest) := SplitOnce(StripScheme(sms), ':');
    SmsArgs(phone, rest.GetOr(""))
  }

  /** With only the prefix removed, every `smsto:<phone>:<message>` comes apart into
      exactly its phone and message, whatever the message holds. */
  lemma SmsPrefixRoundTrip(phone: string, message: string)
    requires ':' !in phone
    ensures SmsFieldsPrefix("smsto:" + phone + ":" + message) == SmsArgs(phone, message)
  {
    var text := phone + ":" + message;
    assert "smsto:" + phone + ":" + message == "smsto:" + text;
    assert StripScheme("smsto:" + text) == text;
    SplitOnceAt(phone, message, ':');
  }

  /** The corrected handler keeps a message that holds `smsto:`. */
  lemma SmsPrefixKeepsMessage()
    ensures SmsFieldsPrefix("smsto:1:smsto:") == SmsArgs("1", "smsto:")
  {
    assert "smsto:1:smsto:" == "smsto:" + "1" + ":" + "smsto:";
    SmsPrefixRoundTrip("1", "smsto:");
  }

  datatype GeoArgs = GeoArgs(latitude: string, longitude: string)

  /** `open_in_map`: delete every `geo:`, split on `,`; the latitude is the first
      piece, the longitude the second or empty, further pieces are ignored. */
  function GeoFields(geo: string): (r: GeoArgs)
    ensures ',' !in r.latitude && ',' !in r.longitude
  {
    var coords := Split(RemoveAll(geo, "geo:"), ',');
    SplitPiecesSeparatorFree(RemoveAll(geo, "geo:"), ',');
    GeoArgs(coords[0], if |coords| > 1 then coords[1] else "")
  }

  /** The fixed map-search address the coordinates are appended to. */
  const MapSearch := "https://www.google.com/maps/search/?api=1&query="

  /** The address `open_in_map` opens: the search address, then `lat,lon`. */
  function MapUrl(geo: string): string {
    var g := GeoFields(geo);
    MapSearch + g.latitude + "," + g.longitude
  }

  /** A `geo:` payload made of comma-free pieces yields the first two pieces
      (the second empty when there is only one). */
  lemma GeoPieces(pieces: seq<string>)
    requires |pieces| >= 1
    requires forall i :: 0 <= i < |pieces| ==> ',' !in pieces[i]
    requires !Contains(Join(pieces, ','), "geo:")
    ensures GeoFields("geo:" + Join(pieces, ','))
         == GeoArgs(pieces[0], if |pieces| > 1 then pieces[1] else "")
  {
    var text := Join(pieces, ',');
    RemoveAllLeading("geo:", text);
    RemoveAllIdentity(text, "geo:");
    SplitJoin(pieces, ',');
  }

  /** `geo:<lat>,<lon>` gives the map query `<lat>,<lon>`. */
  lemma MapUrlQuery(lat: string, lon: string)
    requires ',' !in lat && ',' !in lon
    requires !Contains(lat + "," + lon, "geo:")
    ensures MapUrl("geo:" + lat + "," + lon) == MapSearch + lat + "," + lon
  {
    var pieces := [lat, lon];
    JoinCons(lat, [lon], ',');
    assert Join(pieces, ',') == lat + "," + lon;
    assert "geo:" + lat + "," + lon == "geo:" + Join(pieces, ',');
    GeoPieces(pieces);
  }

  /** A `geo:` payload without a comma yields an empty longitude rather than an
      error, and the map query ends in a bare `,`. The latitude is the rest of the
      payload with every `geo:` deleted, which is the rest itself when `geo:` does
      not recur. */
  lemma GeoMissingLongitude(lat: string)
    requires ',' !in lat
    ensures GeoFields("geo:" + lat) == GeoArgs(RemoveAll(lat, "geo:"), "")
    ensures MapUrl("geo:" + lat) == MapSearch + RemoveAll(lat, "geo:") + ","
    ensures !Contains(lat, "geo:") ==> GeoFields("geo:" + lat) == GeoArgs(lat, "")
  {
    RemoveAllLeading("geo:", lat);
    RemoveAllAbsent(lat, "geo:", ',');
    SplitWithoutSeparator(RemoveAll(lat, "geo:"), ',');
    RemoveAllIdentity(lat, "geo:");
  }
}
