/**
 * The application entry module (src/main.jsx): the deterministic portrait URL used as every avatar's
 * fallback, and the seeding of the user document on start-up.
 */
module Profiles {
  import opened Wrappers
  import Text
  import Storage

  /** What `getRandomProfileImage` may be handed: a string id, a number, or nothing (`undefined`/`null`). */
  datatype ProfileKey = TextId(text: string) | NumberId(number: int) | NoId

  /** Multiplying by a factor of at least one moves away from zero. */
  lemma MulBounds(b: int, k: int)
    ensures b > 0 && k >= 1 ==> b * k >= b
    ensures b > 0 && k <= -1 ==> b * k <= -b
  {
  }

  /** A multiple of `b` leaves no remainder. */
  lemma MultipleMod(b: int, t: int)
    requires b > 0
    ensures (b * t) % b == 0
  {
    var m := (b * t) % b;
    var d := (b * t) / b;
    assert b * t == b * d + m;
    assert m == b * (t - d);
    MulBounds(b, t - d);
  }

  /**
   * JavaScript's `a % b` for `b > 0`: the remainder of truncating division, with the sign of `a`.
   * Sign, size and congruence together pin it down.
   */
  function JsRem(a: int, b: int): (r: int)
    requires b > 0
    ensures a >= 0 ==> 0 <= r < b
    ensures a < 0 ==> -b < r <= 0
    ensures (a - r) % b == 0
  {
    var magnitude := if a >= 0 then a else -a;
    var q := magnitude / b;
    var m := magnitude % b;
    assert magnitude == b * q + m;
    assert a - (if a >= 0 then m else -m) == b * (if a >= 0 then q else -q);
    MultipleMod(b, if a >= 0 then q else -q);
    if a >= 0 then m else -m
  }

  /**
   * The number behind an id: the digits of a string id read as a decimal number, a number as it is;
   * `NaN` and `0` (both falsy) and a missing id become 1.
   */
  function ProfileNumber(k: ProfileKey): (id: int)
    ensures k.TextId? ==> id >= 1
    ensures k.TextId? ==> var digits := Text.StripNonDigits(k.text);
      id == if digits == [] || Text.DigitsValue(digits) == 0 then 1 else Text.DigitsValue(digits)
    ensures k.NumberId? ==> id == if k.number == 0 then 1 else k.number
    ensures k.NoId? ==> id == 1
  {
    match k
    case TextId(s) =>
      var digits := Text.StripNonDigits(s);
      Text.ParseDigits(digits);
      (match Text.ParseInt(digits)
       case Some(v) => if v == 0 then 1 else v
       case None => 1)
    case NumberId(n) => if n == 0 then 1 else n
    case NoId => 1
  }

  /** The portrait folder: `men` for an even number, `women` for an odd one. */
  function Gender(id: int): (g: string)
    ensures g == "men" <==> id % 2 == 0
    ensures g == "men" || g == "women"
  {
    if JsRem(id, 2) == 0 then "men" else "women"
  }

  /** The portrait number `id % 90 + 1`, which is in 1..90 whenever `id` is not negative. */
  function ImageNumber(id: int): (n: int)
    ensures id >= 0 ==> 1 <= n <= 90
    ensures id < 0 ==> -88 <= n <= 1
    ensures (id - (n - 1)) % 90 == 0
  {
    JsRem(id, 90) + 1
  }

  /** The randomuser.me address under which the portraits lie. */
  const PortraitBase: string := "https://randomuser.me/api/portraits/"

  /** The portrait folder for an id: the base address, then `men/` or `women/` by the id's parity. */
  function PortraitFolder(id: int): (folder: string)
    ensures |PortraitBase| < |folder| && folder[..|PortraitBase|] == PortraitBase
    ensures folder == PortraitBase + Gender(id) + "/"
  {
    PortraitBase + Gender(id) + "/"
  }

  /** What follows the portrait number in the URL, up to the `=` of the cache key. */
  const ImageExtension: string := ".jpg?nocache"

  /** The part of the URL after the folder: the portrait file, then the id as the `nocache` key. */
  function PortraitFile(id: int): string {
    Text.IntToString(ImageNumber(id)) + CacheSuffix(id)
  }

  /** What follows the portrait number: the file extension and the id as the `nocache` query value. */
  function CacheSuffix(id: int): string {
    ImageExtension + "=" + Text.IntToString(id)
  }

  /** The portrait URL for a number: its folder, then its file. */
  function PortraitUrl(id: int): (url: string)
    ensures |PortraitFolder(id)| <= |url| && url[..|PortraitFolder(id)|] == PortraitFolder(id)
  {
    var url := PortraitFolder(id) + PortraitFile(id);
    SlicesOfThree(PortraitFolder(id), PortraitFile(id), [], url);
    url
  }

  /** `getRandomProfileImage`: the randomuser.me portrait URL for an id, with the number as cache key. */
  function RandomProfileImage(k: ProfileKey): (url: string)
    ensures var folder := PortraitFolder(ProfileNumber(k));
      |folder| <= |url| && url[..|folder|] == folder
  {
    PortraitUrl(ProfileNumber(k))
  }

  /** The text after the URL's last `=` is the id's number. */
  lemma ImageUrlEndsWithNumber(k: ProfileKey)
    ensures Text.LastSegment(RandomProfileImage(k), '=') == Text.IntToString(ProfileNumber(k))
  {
    var id := ProfileNumber(k);
    var image := Text.IntToString(ImageNumber(id));
    var number := Text.IntToString(id);
    Regroup(PortraitFolder(id), image, number);
    Text.LastSegmentAfter(PortraitFolder(id) + (image + ImageExtension), '=', number);
  }

  /** Regrouping the URL around the `=` of the cache key. */
  lemma Regroup(folder: string, image: string, key: string)
    ensures folder + (image + (ImageExtension + "=" + key)) == (folder + (image + ImageExtension)) + ['='] + key
  {
    assert "=" == ['='];
  }

  /**
   * After the folder the URL names the portrait: the text there parses back to `ImageNumber` of the
   * key's number, and is followed by `.jpg?nocache=` and the number itself.
   */
  lemma ImageUrlNamesPortrait(k: ProfileKey)
    ensures var id := ProfileNumber(k);
      var url := RandomProfileImage(k);
      var folder := PortraitFolder(id);
      var image := Text.IntToString(ImageNumber(id));
      && |folder| + |image| <= |url|
      && Text.ParseInt(url[|folder|..]) == Some(ImageNumber(id))
      && url[|folder|..|folder| + |image|] == image
      && url[|folder| + |image|..] == ImageExtension + "=" + Text.IntToString(id)
  {
    PortraitUrlNamesPortrait(ProfileNumber(k));
  }

  /** The same facts for the URL of a number. */
  lemma PortraitUrlNamesPortrait(id: int)
    ensures var url := PortraitUrl(id);
      var folder := PortraitFolder(id);
      var image := Text.IntToString(ImageNumber(id));
      && |folder| + |image| <= |url|
      && Text.ParseInt(url[|folder|..]) == Some(ImageNumber(id))
      && url[|folder|..|folder| + |image|] == image
      && url[|folder| + |image|..] == ImageExtension + "=" + Text.IntToString(id)
  {
    CacheKeyAfterDot(Text.IntToString(id));
    UrlParts(PortraitFolder(id), ImageNumber(id), CacheSuffix(id), PortraitUrl(id));
  }

  /** The same facts for any folder, portrait number and text after the number that starts with a non-digit. */
  lemma UrlParts(folder: string, n: int, tail: string, url: string)
    requires url == folder + (Text.IntToString(n) + tail)
    requires tail != [] && !Text.IsDigit(tail[0])
    ensures var image := Text.IntToString(n);
      && |folder| + |image| <= |url|
      && Text.ParseInt(url[|folder|..]) == Some(n)
      && url[|folder|..|folder| + |image|] == image
      && url[|folder| + |image|..] == tail
  {
    SlicesOfThree(folder, Text.IntToString(n), tail, url);
    ParseWithin(url[|folder|..], n, tail);
  }

  /** What follows the portrait number starts with the `.` of the file extension. */
  lemma CacheKeyAfterDot(key: string)
    ensures (ImageExtension + "=" + key)[0] == '.'
  {
  }

  /** Text that equals a formatted number followed by a non-digit parses to that number. */
  lemma ParseWithin(s: string, n: int, tail: string)
    requires s == Text.IntToString(n) + tail
    requires tail == [] || !Text.IsDigit(tail[0])
    ensures Text.ParseInt(s) == Some(n)
  {
    Text.ParseIntThenText(n, tail);
  }

  /** The slices of a three-part concatenation at the part boundaries. */
  lemma SlicesOfThree(a: string, b: string, c: string, s: string)
    requires s == a + (b + c)
    ensures |a| + |b| <= |s|
    ensures s[..|a|] == a && s[|a|..] == b + c && s[|a|..|a| + |b|] == b && s[|a| + |b|..] == c
  {
    assert s[|a|..] == b + c;
    assert (b + c)[..|b|] == b;
  }

  /** Two keys get the same portrait URL only when they have the same number: the URL is a cache key. */
  lemma ImageUrlDeterminesNumber(k1: ProfileKey, k2: ProfileKey)
    requires RandomProfileImage(k1) == RandomProfileImage(k2)
    ensures ProfileNumber(k1) == ProfileNumber(k2)
  {
    ImageUrlEndsWithNumber(k1);
    ImageUrlEndsWithNumber(k2);
    Text.IntToStringInjective(ProfileNumber(k1), ProfileNumber(k2));
  }

  /** A string id always lands on a portrait in 1..90 of the folder its number's parity picks. */
  lemma TextIdPortrait(s: string)
    ensures var id := ProfileNumber(TextId(s));
      1 <= ImageNumber(id) <= 90 && (Gender(id) == "men" <==> id % 2 == 0)
  {
  }

  // ---------------------------------------------------------------- user seeding

  /** The accounts written on first start. */
  const DefaultUsers: seq<Storage.User> := [
    Storage.User("user1", "admin", "admin123", "Admin", "Anand Kumar"),
    Storage.User("user2", "user", "user123", "Member", "Olivia Rhye"),
    Storage.User("user3", "demo", "demo123", "Member", "Phoenix Baker")
  ]

  /** The `receptoUsers` entry after seeding: the defaults when the key is absent, else as it was. */
  function SeededUsers(doc: Option<seq<Storage.User>>): (r: Option<seq<Storage.User>>)
    ensures r.Some?
    ensures doc.Some? ==> r == doc
    ensures doc.None? ==> r == Some(DefaultUsers)
  {
    if doc.None? then Some(DefaultUsers) else doc
  }

  /** Seeding leaves a document in place and is idempotent. */
  lemma SeedingIdempotent(doc: Option<seq<Storage.User>>)
    ensures SeededUsers(doc).Some?
    ensures doc.Some? ==> SeededUsers(doc) == doc
    ensures SeededUsers(SeededUsers(doc)) == SeededUsers(doc)
  {
  }

  /** `initializeUsers`: writes the default accounts only when `receptoUsers` is absent. */
  method InitializeUsers(store: Storage.Store)
    modifies store`users
    ensures store.users == SeededUsers(old(store.users))
    ensures store.users.Some?
    ensures old(store.users).Some? ==> store.users == old(store.users)
  {
    if store.users.None? {
      store.users := Some(DefaultUsers);
    }
  }
}
