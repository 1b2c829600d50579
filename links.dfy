/** The link table of the bot: the link-type and Twitter-style enumerations,
    the canonical link templates of every platform, and recognisers for the
    regular expressions whose matches the rest of the model relies on. */
module Links {
  import opened Common

  /** `range(n)` as the sequence it enumerates. */
  function Range(n: nat): (r: seq<int>)
    ensures |r| == n
    ensures forall i :: 0 <= i < n ==> r[i] == i
  {
    if n == 0 then [] else Range(n - 1) + [n - 1]
  }

  // ---------------------------------------------------------------------------
  // LinkType

  const Twitter := 0
  const Pixiv := 1
  const TikTok := 2
  const Instagram := 3
  const YoutubeShort := 4

  const LinkTypes: seq<int> := Range(5)

  const LinkTypeNames: seq<string> := ["twitter", "pixiv", "tiktok", "instagram", "youtube short"]

  /** `LinkType.validate(value)`: membership in `range(5)`. */
  function ValidateLinkType(value: int): (b: bool)
    ensures b <==> 0 <= value < 5
  {
    value in LinkTypes
  }

  /** `LinkType.getType(value)`: plain list indexing, so negative values
      count from the end and anything outside `-5..4` raises. */
  function GetType(value: int): (r: Outcome<string>)
    ensures ValidateLinkType(value) ==> r == Returned(LinkTypeNames[value])
    ensures -5 <= value < 0 ==> r == Returned(LinkTypeNames[5 + value])
    ensures r.Raised? <==> !(-5 <= value < 5)
    ensures r.Raised? ==> r.exc == IndexError
  {
    PyIndex(LinkTypeNames, value)
  }

  /** Each constant names its own platform. */
  lemma GetTypeNames()
    ensures GetType(Twitter) == Returned("twitter")
    ensures GetType(Pixiv) == Returned("pixiv")
    ensures GetType(TikTok) == Returned("tiktok")
    ensures GetType(Instagram) == Returned("instagram")
    ensures GetType(YoutubeShort) == Returned("youtube short")
  {
  }

  // ---------------------------------------------------------------------------
  // TwitterStyle

  const ImageLink := 0
  const ImageInfoEmbedLink := 1
  const ImageInfoEmbedLinkDesc := 2

  const TwitterStyles: seq<int> := Range(3)

  /** `TwitterStyle.validate(value)`: membership in `range(3)`. */
  function ValidateTwitterStyle(value: int): (b: bool)
    ensures b <==> value == ImageLink || value == ImageInfoEmbedLink || value == ImageInfoEmbedLinkDesc
  {
    value in TwitterStyles
  }

  // ---------------------------------------------------------------------------
  // Templates and the link dictionary

  const TwitterLinkTemplate: Template := [Text("https://twitter.com/"), Field("author"), Text("/status/"), Field("id")]
  const TwitterFullTemplate: Template :=
    [Text("https://pbs.twimg.com/media/"), Field("id"), Text("?format="), Field("format"), Text("&name=orig")]
  const PixivLinkTemplate: Template := [Text("https://www.pixiv.net/artworks/"), Field("id")]
  const TikTokLinkTemplate: Template := [Text("https://m.tiktok.com/v/"), Field("id")]
  const TikTokSourceTemplate: Template := [Text("https://www.tiktok.com/@"), Field("author"), Text("/video/"), Field("id")]
  const VTikTokLinkTemplate: Template := [Text("https://"), Field("pre"), Text(".tiktok.com/"), Field("id")]
  const InstagramLinkTemplate: Template := [Text("https://instagram.com/p/"), Field("id")]
  const YoutubeShortLinkTemplate: Template := [Text("https://www.youtube.com/shorts/"), Field("id")]

  /** One platform's entry: its templates by key, and its link type. */
  datatype Entry = Entry(templates: map<string, Template>, linkType: int)

  /** `link_dict`, without the regular expressions, which are the recognisers below. */
  const LinkDict: map<string, Entry> := map[
    "twitter" := Entry(map["link" := TwitterLinkTemplate, "full" := TwitterFullTemplate], Twitter),
    "pixiv" := Entry(map["link" := PixivLinkTemplate], Pixiv),
    "tiktok" := Entry(map["link" := TikTokLinkTemplate, "source" := TikTokSourceTemplate], TikTok),
    "vtiktok" := Entry(map["link" := VTikTokLinkTemplate], TikTok),
    "instagram" := Entry(map["link" := InstagramLinkTemplate], Instagram),
    "youtube_short" := Entry(map["link" := YoutubeShortLinkTemplate], YoutubeShort)]

  /** Every entry carries a valid link type; both TikTok link forms are TikTok. */
  lemma LinkDictTypes()
    ensures forall name :: name in LinkDict ==> ValidateLinkType(LinkDict[name].linkType)
    ensures LinkDict["tiktok"].linkType == LinkDict["vtiktok"].linkType == TikTok
    ensures GetType(LinkDict["youtube_short"].linkType) == Returned("youtube short")
  {
  }

  /** Every entry has a "link" template. */
  lemma LinkDictLinks()
    ensures forall name :: name in LinkDict ==> "link" in LinkDict[name].templates
  {
  }

  /** The Twitter post link. */
  lemma TwitterLinkFormat(author: string, id: string)
    ensures Expand(TwitterLinkTemplate, map["author" := author, "id" := id])
      == Returned("https://twitter.com/" + author + "/status/" + id)
  {
    var t := TwitterLinkTemplate;
    var args := map["author" := author, "id" := id];
    assert t[4..] == [] && t[3..][1..] == t[4..] && t[2..][1..] == t[3..] && t[1..][1..] == t[2..];
    assert id + [] == id;
    assert Expand(t[3..], args) == Returned(id);
    assert Expand(t[2..], args) == Returned("/status/" + id);
    assert Expand(t[1..], args) == Returned(author + ("/status/" + id));
    assert "https://twitter.com/" + (author + ("/status/" + id)) == "https://twitter.com/" + author + "/status/" + id;
  }

  /** The original-size image link. */
  lemma TwitterFullFormat(id: string, format: string)
    ensures Expand(TwitterFullTemplate, map["id" := id, "format" := format])
      == Returned("https://pbs.twimg.com/media/" + id + "?format=" + format + "&name=orig")
  {
    var t := TwitterFullTemplate;
    var args := map["id" := id, "format" := format];
    assert t[5..] == [] && t[4..][1..] == t[5..] && t[3..][1..] == t[4..] && t[2..][1..] == t[3..] && t[1..][1..] == t[2..];
    assert "&name=orig" + [] == "&name=orig";
    assert Expand(t[4..], args) == Returned("&name=orig");
    assert Expand(t[3..], args) == Returned(format + "&name=orig");
    assert Expand(t[2..], args) == Returned("?format=" + (format + "&name=orig"));
    assert Expand(t[1..], args) == Returned(id + ("?format=" + (format + "&name=orig")));
    assert "https://pbs.twimg.com/media/" + (id + ("?format=" + (format + "&name=orig")))
      == "https://pbs.twimg.com/media/" + id + "?format=" + format + "&name=orig";
  }

  /** A template of literal text and then one field. */
  lemma ExpandTextField(x: string, name: string, args: map<string, string>)
    requires name in args
    ensures Expand([Text(x), Field(name)], args) == Returned(x + args[name])
  {
    var t := [Text(x), Field(name)];
    assert t[1..] == [Field(name)] && t[1..][1..] == [];
    assert args[name] + [] == args[name];
    assert Expand(t[1..], args) == Returned(args[name]);
  }

  lemma PixivLinkFormat(id: string)
    ensures Expand(PixivLinkTemplate, map["id" := id]) == Returned("https://www.pixiv.net/artworks/" + id)
  {
    ExpandTextField("https://www.pixiv.net/artworks/", "id", map["id" := id]);
  }

  lemma TikTokLinkFormat(id: string)
    ensures Expand(TikTokLinkTemplate, map["id" := id]) == Returned("https://m.tiktok.com/v/" + id)
  {
    ExpandTextField("https://m.tiktok.com/v/", "id", map["id" := id]);
  }

  lemma TikTokSourceFormat(author: string, id: string)
    ensures Expand(TikTokSourceTemplate, map["id" := id, "author" := author])
      == Returned("https://www.tiktok.com/@" + author + "/video/" + id)
  {
    var t := TikTokSourceTemplate;
    var args := map["id" := id, "author" := author];
    assert t[4..] == [] && t[3..][1..] == t[4..] && t[2..][1..] == t[3..] && t[1..][1..] == t[2..];
    assert id + [] == id;
    assert Expand(t[3..], args) == Returned(id);
    assert Expand(t[2..], args) == Returned("/video/" + id);
    assert Expand(t[1..], args) == Returned(author + ("/video/" + id));
    assert "https://www.tiktok.com/@" + (author + ("/video/" + id)) == "https://www.tiktok.com/@" + author + "/video/" + id;
  }

  lemma YoutubeShortLinkFormat(id: string)
    ensures Expand(YoutubeShortLinkTemplate, map["id" := id]) == Returned("https://www.youtube.com/shorts/" + id)
  {
    ExpandTextField("https://www.youtube.com/shorts/", "id", map["id" := id]);
  }

  // ---------------------------------------------------------------------------
  // re.search

  /** The named groups of a match, as `groupdict()` returns them. */
  type Groups = map<string, string>

  /** `re.search`: the match that starts at the leftmost position where the
      pattern matches at all; `at(s, p)` is the pattern anchored at `p`. */
  function Search(s: string, at: (string, nat) -> Option<Groups>): Option<Groups> {
    SearchFrom(s, 0, at)
  }

  function SearchFrom(s: string, p: nat, at: (string, nat) -> Option<Groups>): Option<Groups>
    requires p <= |s|
    decreases |s| - p
  {
    if at(s, p).Some? || p == |s| then at(s, p) else SearchFrom(s, p + 1, at)
  }

  /** A match at `k` with none before it is the one `re.search` reports. */
  lemma SearchFinds(s: string, at: (string, nat) -> Option<Groups>, k: nat)
    requires k <= |s| && at(s, k).Some?
    requires forall q :: 0 <= q < k ==> at(s, q).None?
    ensures Search(s, at) == at(s, k)
  {
    SearchFromFinds(s, 0, at, k);
  }

  lemma {:induction false} SearchFromFinds(s: string, p: nat, at: (string, nat) -> Option<Groups>, k: nat)
    requires p <= k <= |s| && at(s, k).Some?
    requires forall q :: p <= q < k ==> at(s, q).None?
    ensures SearchFrom(s, p, at) == at(s, k)
    decreases k - p
  {
    if p < k {
      SearchFromFinds(s, p + 1, at, k);
    }
  }

  /** With no position matching, `re.search` returns `None`. */
  lemma SearchMisses(s: string, at: (string, nat) -> Option<Groups>)
    requires forall q :: 0 <= q <= |s| ==> at(s, q).None?
    ensures Search(s, at) == None
  {
    SearchFromMisses(s, 0, at);
  }

  lemma {:induction false} SearchFromMisses(s: string, p: nat, at: (string, nat) -> Option<Groups>)
    requires p <= |s|
    requires forall q :: p <= q <= |s| ==> at(s, q).None?
    ensures SearchFrom(s, p, at) == None
    decreases |s| - p
  {
    if p < |s| {
      SearchFromMisses(s, p + 1, at);
    }
  }

  /** The first alternative that matches, as a backtracking matcher tries them. */
  function Alt<T>(first: Option<T>, second: Option<T>): Option<T> {
    if first.Some? then first else second
  }

  /** `\d+` at `q`, greedy: the whole run of digits, which must not be empty. */
  function DigitsAt(s: string, q: nat): (r: Option<string>)
    requires q <= |s|
    ensures r.Some? ==> r.value != [] && AllDigits(r.value)
  {
    var d := TakeWhile(s[q..], IsDigit);
    if d == [] then None else Some(d)
  }

  /** A decimal number that ends the string is what `\d+` takes. */
  lemma DigitsAtEnd(s: string, q: nat, id: string)
    requires q <= |s| && s[q..] == id && id != [] && AllDigits(id)
    ensures DigitsAt(s, q) == Some(id)
  {
    TakeWhileConcat(id, [], IsDigit);
    assert id + [] == id;
  }

  /** When `s` begins with `a + b`, no position within the length of `b`
      starts `lit` if the character `lit` has at offset `|a|` is not in `b`. */
  lemma NoStartBefore(s: string, a: string, b: string, lit: string)
    requires |a| + |b| <= |s| && s[..|a| + |b|] == a + b
    requires |a| < |lit| && lit[|a|] !in b
    ensures forall q :: 0 <= q < |b| ==> !StartsWith(s[q..], lit)
  {
    forall q | 0 <= q < |b| ensures !StartsWith(s[q..], lit) {
      assert s[q + |a|] == s[..|a| + |b|][q + |a|] == b[q];
      NotStartsWith(s[q..], lit, |a|);
    }
  }

  // ---------------------------------------------------------------------------
  // link_dict["twitter"]["re"]: (www\.)? twitter\.com/ (?P<author>.+?) / status(es)?/ (?P<id>\d+)

  function TwitterPostAt(s: string, p: nat): Option<Groups> {
    if p > |s| then None
    else Alt(
      if StartsWith(s[p..], "www.twitter.com/") then LazyAuthor(s, p + 16, 1) else None,
      if StartsWith(s[p..], "twitter.com/") then LazyAuthor(s, p + 12, 1) else None)
  }

  /** `.+?` followed by the rest of the pattern: the shortest author of at
      least `k` characters, none of them a line break, after which the
      status part matches. */
  function LazyAuthor(s: string, r: nat, k: nat): Option<Groups>
    requires r <= |s| && k >= 1
    decreases |s| - r - k + 1
  {
    if r + k > |s| || s[r + k - 1] == '\n' then None
    else match StatusId(s, r + k)
      case Some(id) => Some(map["author" := s[r..r + k], "id" := id])
      case None => LazyAuthor(s, r, k + 1)
  }

  /** `/status(es)?/(?P<id>\d+)` at `q`, the longer keyword tried first. */
  function StatusId(s: string, q: nat): Option<string>
    requires q <= |s|
  {
    Alt(
      if StartsWith(s[q..], "/statuses/") then DigitsAt(s, q + 10) else None,
      if StartsWith(s[q..], "/status/") then DigitsAt(s, q + 8) else None)
  }

  function TwitterPostSearch(s: string): Option<Groups> {
    Search(s, TwitterPostAt)
  }

  /** A filled-in post link gives back its author and its id, provided the
      author is a non-empty name without slashes or line breaks. */
  lemma TwitterPostRoundTrip(author: string, id: string)
    requires author != [] && '/' !in author && '\n' !in author
    requires id != [] && AllDigits(id)
    ensures TwitterPostSearch("https://twitter.com/" + author + "/status/" + id)
      == Some(map["author" := author, "id" := id])
  {
    var rest := author + "/status/" + id;
    var s := "https://twitter.com/" + rest;
    assert s == "https://twitter.com/" + author + "/status/" + id;
    TwitterPostPrefix(s, rest);
    assert s[8..] == "twitter.com/" + rest;
    StartsWithConcat("twitter.com/", rest);
    NotStartsWith(s[8..], "www.twitter.com/", 0);
    TwitterAuthorFound(s, 20, author, id, 1);
    SearchFinds(s, TwitterPostAt, 8);
  }

  /** Nothing in the scheme `https://` can start a match. */
  lemma TwitterPostPrefix(s: string, rest: string)
    requires s == "https://twitter.com/" + rest
    ensures forall q :: 0 <= q < 8 ==> TwitterPostAt(s, q).None?
  {
    assert s[..8] == "https://" && s[8] == 't';
    SchemeStartsNoHost(s, "twitter.com/");
    assert "www." + "twitter.com/" == "www.twitter.com/";
    forall q | 0 <= q < 8 ensures TwitterPostAt(s, q).None? {
    }
  }

  /** No position inside `https://` starts `host` or `www.` + `host`, when the
      second character of `host` occurs neither in `ttps://` nor right after it. */
  lemma SchemeStartsNoHost(s: string, host: string)
    requires |s| >= 9 && s[..8] == "https://"
    requires |host| >= 2 && host[1] !in "ttps://" + [s[8]]
    ensures forall q :: 0 <= q < 8 ==> !StartsWith(s[q..], host) && !StartsWith(s[q..], "www." + host)
  {
    assert s[..9] == "h" + ("ttps://" + [s[8]]);
    NoStartBefore(s, "h", "ttps://" + [s[8]], host);
    assert s[..8] == "" + "https://";
    NoStartBefore(s, "", "https://", "www." + host);
  }

  lemma {:induction false} TwitterAuthorFound(s: string, r: nat, author: string, id: string, k: nat)
    requires r <= |s| && s[r..] == author + "/status/" + id
    requires 1 <= k <= |author| && '/' !in author && '\n' !in author
    requires id != [] && AllDigits(id)
    ensures LazyAuthor(s, r, k) == Some(map["author" := author, "id" := id])
    decreases |author| - k
  {
    assert s[r + k - 1] == author[k - 1] && author[k - 1] in author;
    if k < |author| {
      assert s[r + k] == author[k] && author[k] in author;
      NotStartsWith(s[r + k..], "/statuses/", 0);
      NotStartsWith(s[r + k..], "/status/", 0);
      TwitterAuthorFound(s, r, author, id, k + 1);
    } else {
      assert s[r..r + k] == author;
      var t := s[r + k..];
      assert t == "/status/" + id;
      assert t[7] == '/';
      NotStartsWith(t, "/statuses/", 7);
      StartsWithConcat("/status/", id);
      DigitsAtEnd(s, r + k + 8, id);
    }
  }

  // ---------------------------------------------------------------------------
  // link_dict["twitter"]["file"]: media/ (?P<id>[^.?]+) (\?.*format=|\.) (?P<format>\w+)

  predicate AllWord(s: string) { forall i :: 0 <= i < |s| ==> IsWordChar(s[i]) }

  predicate NotDotOrQuery(c: char) { c != '.' && c != '?' }

  predicate IsNotNewline(c: char) { c != '\n' }

  /** The pattern anchored at `p`. The id is the whole run of characters
      other than `.` and `?`: a shorter id would leave one of those
      characters where the pattern needs `.` or `?`. */
  function TwitterFileAt(s: string, p: nat): Option<Groups> {
    if p > |s| || !StartsWith(s[p..], "media/") then None
    else
      var id := TakeWhile(s[p + 6..], NotDotOrQuery);
      var q := p + 6 + |id|;
      if id == [] then None
      else match Alt(QueryFormat(s, q), DotFormat(s, q))
        case None => None
        case Some(format) => Some(map["id" := id, "format" := format])
  }

  /** `\?.*format=(?P<format>\w+)` at `q`: the greedy `.*` stops at the line
      end and gives back characters until `format=` and a word character
      follow, so the last such `format=` on the line wins. */
  function QueryFormat(s: string, q: nat): Option<string>
    requires q <= |s|
  {
    if q == |s| || s[q] != '?' then None
    else
      var line := TakeWhile(s[q + 1..], IsNotNewline);
      LastFormat(s, q + 1, q + 1 + |line|)
  }

  function LastFormat(s: string, lo: nat, j: nat): Option<string>
    requires lo <= j <= |s|
    decreases j
  {
    var w := if StartsWith(s[j..], "format=") then TakeWhile(s[j + 7..], IsWordChar) else [];
    if w != [] then Some(w)
    else if j == lo then None
    else LastFormat(s, lo, j - 1)
  }

  /** `\.(?P<format>\w+)` at `q`. */
  function DotFormat(s: string, q: nat): Option<string>
    requires q <= |s|
  {
    if q == |s| || s[q] != '.' then None
    else
      var w := TakeWhile(s[q + 1..], IsWordChar);
      if w == [] then None else Some(w)
  }

  function TwitterFileSearch(s: string): Option<Groups> {
    Search(s, TwitterFileAt)
  }

  const TwimgMedia := "https://pbs.twimg.com/media/"

  /** An image url of the form `.../media/ID.EXT` gives back `ID` and `EXT`. */
  lemma TwitterFileDotForm(id: string, ext: string)
    requires id != [] && '.' !in id && '?' !in id
    requires ext != [] && AllWord(ext)
    ensures TwitterFileSearch(TwimgMedia + id + "." + ext) == Some(map["id" := id, "format" := ext])
  {
    var s := TwimgMedia + (id + "." + ext);
    assert s == TwimgMedia + id + "." + ext;
    TwimgPrefix(s, id + "." + ext);
    TwitterFileFound(s, id, ext);
    SearchFinds(s, TwitterFileAt, 22);
  }

  /** Before `media/`, the host part of the link starts no match. */
  lemma TwimgPrefix(s: string, rest: string)
    requires s == TwimgMedia + rest
    ensures forall q :: 0 <= q < 22 ==> TwitterFileAt(s, q).None?
  {
    TwimgHostPrefix(s, rest);
    forall q | 0 <= q < 22 ensures TwitterFileAt(s, q).None? {
    }
  }

  lemma TwimgHostPrefix(s: string, rest: string)
    requires s == TwimgMedia + rest
    ensures forall q :: 0 <= q < 22 ==> !StartsWith(s[q..], "media/")
  {
    assert s[..23] == "h" + "ttps://pbs.twimg.com/m";
    NoStartBefore(s, "h", "ttps://pbs.twimg.com/m", "media/");
  }

  lemma TwitterFileFound(s: string, id: string, ext: string)
    requires s == TwimgMedia + (id + "." + ext)
    requires id != [] && '.' !in id && '?' !in id
    requires ext != [] && AllWord(ext)
    ensures TwitterFileAt(s, 22) == Some(map["id" := id, "format" := ext])
  {
    assert s[22..28] == "media/";
    assert s[22..][..6] == s[22..28];
    assert s[28..] == id + "." + ext;
    TwitterFileDot(s, 22, id, ext);
  }

  /** After `media/`, an id without `.` or `?`, a dot and a word ends the match. */
  lemma TwitterFileDot(s: string, p: nat, id: string, ext: string)
    requires p + 6 <= |s| && StartsWith(s[p..], "media/") && s[p + 6..] == id + "." + ext
    requires id != [] && '.' !in id && '?' !in id
    requires ext != [] && AllWord(ext)
    ensures TwitterFileAt(s, p) == Some(map["id" := id, "format" := ext])
  {
    forall i | 0 <= i < |id| ensures NotDotOrQuery(id[i]) {
      assert id[i] in id;
    }
    assert s[p + 6..] == id + ("." + ext);
    TakeWhileConcat(id, "." + ext, NotDotOrQuery);
    var q := p + 6 + |id|;
    assert s[q] == '.';
    assert QueryFormat(s, q) == None;
    assert s[q + 1..] == ext + [];
    TakeWhileConcat(ext, [], IsWordChar);
    assert DotFormat(s, q) == Some(ext);
  }

  // ---------------------------------------------------------------------------
  // link_dict["pixiv"]["re"]: (www\.)? pixiv\.net/ (\w{2}/)? artworks/ (?P<id>\d+)

  function PixivAt(s: string, p: nat): Option<Groups> {
    if p > |s| then None
    else Alt(
      if StartsWith(s[p..], "www.pixiv.net/") then PixivPath(s, p + 14) else None,
      if StartsWith(s[p..], "pixiv.net/") then PixivPath(s, p + 10) else None)
  }

  /** The optional two-letter language segment, tried present first. */
  function PixivPath(s: string, q: nat): Option<Groups>
    requires q <= |s|
  {
    Alt(
      if q + 3 <= |s| && IsWordChar(s[q]) && IsWordChar(s[q + 1]) && s[q + 2] == '/' then Artworks(s, q + 3) else None,
      Artworks(s, q))
  }

  function Artworks(s: string, q: nat): Option<Groups>
    requires q <= |s|
  {
    if !StartsWith(s[q..], "artworks/") then None
    else match DigitsAt(s, q + 9)
      case None => None
      case Some(id) => Some(map["id" := id])
  }

  function PixivSearch(s: string): Option<Groups> {
    Search(s, PixivAt)
  }

  /** The artwork link filled with a decimal id gives back that id. */
  lemma PixivRoundTrip(id: string)
    requires id != [] && AllDigits(id)
    ensures PixivSearch("https://www.pixiv.net/artworks/" + id) == Some(map["id" := id])
  {
    var s := "https://www.pixiv.net/artworks/" + id;
    PixivPrefix(s, id);
    PixivFound(s, id);
    SearchFinds(s, PixivAt, 8);
  }

  /** Nothing in the scheme `https://` can start a match. */
  lemma PixivPrefix(s: string, rest: string)
    requires s == "https://www.pixiv.net/artworks/" + rest
    ensures forall q :: 0 <= q < 8 ==> PixivAt(s, q).None?
  {
    assert s[..8] == "https://" && s[8] == 'w';
    SchemeStartsNoHost(s, "pixiv.net/");
    assert "www." + "pixiv.net/" == "www.pixiv.net/";
    forall q | 0 <= q < 8 ensures PixivAt(s, q).None? {
    }
  }


  lemma PixivFound(s: string, id: string)
    requires s == "https://www.pixiv.net/artworks/" + id
    requires id != [] && AllDigits(id)
    ensures PixivAt(s, 8) == Some(map["id" := id])
  {
    assert s == "https://" + "www.pixiv.net/" + ("artworks/" + id);
    assert s[8..] == "www.pixiv.net/" + ("artworks/" + id);
    StartsWithConcat("www.pixiv.net/", "artworks/" + id);
    var t := s[22..];
    assert t == "artworks/" + id;
    assert t[2] == 't';
    StartsWithConcat("artworks/", id);
    DigitsAtEnd(s, 31, id);
  }

  // ---------------------------------------------------------------------------
  // link_dict["youtube_short"]["re"]: youtube\.com/ shorts/ (?P<id>\w{11})

  function YoutubeShortAt(s: string, p: nat): Option<Groups> {
    if p + 30 <= |s| && StartsWith(s[p..], "youtube.com/shorts/") && AllWord(s[p + 19..p + 30])
    then Some(map["id" := s[p + 19..p + 30]])
    else None
  }

  function YoutubeShortSearch(s: string): Option<Groups> {
    Search(s, YoutubeShortAt)
  }

  const YoutubeShorts := "https://www.youtube.com/shorts/"

  /** The part of the link that precedes the host: no `y` in it. */
  lemma YoutubeShortPrefix(s: string, rest: string, q: nat)
    requires s == YoutubeShorts + rest && q < 31 && q != 12
    ensures !StartsWith(s[q..], "youtube.com/shorts/")
  {
    assert s[..31] == YoutubeShorts;
    assert s[q] == YoutubeShorts[q];
    if q < 12 {
      assert YoutubeShorts[..12] == "https://www.";
      assert YoutubeShorts[q] == YoutubeShorts[..12][q];
    } else {
      assert YoutubeShorts[13..] == "outube.com/shorts/";
      assert YoutubeShorts[q] == YoutubeShorts[13..][q - 13];
    }
    assert s[q..][0] == s[q] != 'y';
    NotStartsWith(s[q..], "youtube.com/shorts/", 0);
  }

  /** The shorts link filled with an 11-character id gives back that id. */
  lemma YoutubeShortRoundTrip(id: string)
    requires |id| == 11 && AllWord(id)
    ensures YoutubeShortSearch(YoutubeShorts + id) == Some(map["id" := id])
  {
    var s := YoutubeShorts + id;
    forall q | 0 <= q < 12 ensures YoutubeShortAt(s, q).None? {
      YoutubeShortPrefix(s, id, q);
    }
    assert s[12..] == "youtube.com/shorts/" + id;
    StartsWithConcat("youtube.com/shorts/", id);
    assert s[31..42] == id;
    SearchFinds(s, YoutubeShortAt, 12);
  }

  /** After `shorts/`, an id without `/` whose first 11 characters are not all
      word characters (or that is shorter than 11) never matches. */
  lemma YoutubeShortTooShort(id: string)
    requires |id| < 11 || !AllWord(id[..11])
    requires '/' !in id
    ensures YoutubeShortSearch(YoutubeShorts + id) == None
  {
    var s := YoutubeShorts + id;
    forall q | 0 <= q <= |s| ensures YoutubeShortAt(s, q).None? {
      if q < 31 && q != 12 {
        YoutubeShortPrefix(s, id, q);
      } else if q == 12 {
        if q + 30 <= |s| {
          assert s[31..42] == id[..11];
        }
      } else if q + 30 <= |s| {
        assert s[q..][11] == s[q + 11] == id[q - 20];
        NotStartsWith(s[q..], "youtube.com/shorts/", 11);
      }
    }
    SearchMisses(s, YoutubeShortAt);
  }
}
