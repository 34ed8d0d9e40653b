/** The YouTube link pattern `^(https?:\/\/)?(www\.)?(youtube\.com|youtu\.be)\/.+$`,
    written out identically in plugins/dl-ytv1.js and plugins/dl-yt1.js: an
    optional `http://` or `https://`, an optional `www.`, the host
    `youtube.com` or `youtu.be`, a `/`, and at least one more character, none
    of them a line terminator (the pattern has no flags, so it is case
    sensitive and `.` stops at line ends). */
module YoutubeUrl {
  import opened Js

  predicate HasPrefix(s: string, p: string) {
    |p| <= |s| && s[..|p|] == p
  }

  /** `.+$`: one or more characters, none a line terminator, up to the end. */
  predicate RestOfLine(r: string) {
    |r| >= 1 && forall k :: 0 <= k < |r| ==> !IsLineTerminator(r[k])
  }

  /** `(youtube\.com|youtu\.be)\/.+$` */
  predicate HostAndPath(s: string) {
    || (HasPrefix(s, "youtube.com/") && RestOfLine(s[12..]))
    || (HasPrefix(s, "youtu.be/") && RestOfLine(s[9..]))
  }

  /** `(www\.)?` followed by the host and path, trying `www.` first. */
  predicate WwwHostAndPath(s: string) {
    (HasPrefix(s, "www.") && HostAndPath(s[4..])) || HostAndPath(s)
  }

  /** `youtubeRegex.test(s)`: the alternatives the backtracking matcher tries
      for each optional group. */
  predicate IsYoutubeUrl(s: string) {
    || (HasPrefix(s, "http://") && WwwHostAndPath(s[7..]))
    || (HasPrefix(s, "https://") && WwwHostAndPath(s[8..]))
    || WwwHostAndPath(s)
  }

  // A reference reading of the same pattern: the text is a scheme, a `www`
  // part and a host chosen from their finite alternatives, then `/` and the
  // rest of the line.

  const Schemes: set<string> := {"", "http://", "https://"}
  const WwwParts: set<string> := {"", "www."}
  const Hosts: set<string> := {"youtube.com", "youtu.be"}

  predicate ShapedAs(s: string, scheme: string, www: string, host: string) {
    HasPrefix(s, scheme + www + host + "/") && RestOfLine(s[|scheme + www + host| + 1..])
  }

  ghost predicate YoutubeShape(s: string) {
    exists scheme, www, host ::
      scheme in Schemes && www in WwwParts && host in Hosts && ShapedAs(s, scheme, www, host)
  }

  lemma PrefixConcat(s: string, a: string, b: string)
    ensures HasPrefix(s, a + b) <==> HasPrefix(s, a) && HasPrefix(s[|a|..], b)
  {
    if HasPrefix(s, a) && HasPrefix(s[|a|..], b) {
      assert s[..|a + b|] == s[..|a|] + s[|a|..][..|b|];
    }
    if HasPrefix(s, a + b) {
      assert s[..|a|] == (a + b)[..|a|];
      assert s[|a|..][..|b|] == (a + b)[|a|..];
    }
  }

  /** The matcher's reading and the reference reading accept the same texts. */
  lemma {:induction false} IsYoutubeUrlIsShape(s: string)
    ensures IsYoutubeUrl(s) <==> YoutubeShape(s)
  {
    if IsYoutubeUrl(s) {
      if HasPrefix(s, "http://") && WwwHostAndPath(s[7..]) {
        WwwShape(s, "http://");
      } else if HasPrefix(s, "https://") && WwwHostAndPath(s[8..]) {
        WwwShape(s, "https://");
      } else {
        assert s[0..] == s;
        WwwShape(s, "");
      }
    }
    if YoutubeShape(s) {
      var scheme, www, host :| scheme in Schemes && www in WwwParts && host in Hosts
                              && ShapedAs(s, scheme, www, host);
      ShapedIsYoutubeUrl(s, scheme, www, host);
    }
  }

  lemma WwwShape(s: string, scheme: string)
    requires scheme in Schemes && HasPrefix(s, scheme) && WwwHostAndPath(s[|scheme|..])
    ensures YoutubeShape(s)
  {
    var t := s[|scheme|..];
    if HasPrefix(t, "www.") && HostAndPath(t[4..]) {
      HostShape(s, scheme, "www.");
    } else {
      assert t[0..] == t;
      HostShape(s, scheme, "");
    }
  }

  lemma HostShape(s: string, scheme: string, www: string)
    requires scheme in Schemes && www in WwwParts && HasPrefix(s, scheme)
    requires HasPrefix(s[|scheme|..], www) && HostAndPath(s[|scheme|..][|www|..])
    ensures YoutubeShape(s)
  {
    var u := s[|scheme|..][|www|..];
    if HasPrefix(u, "youtube.com/") && RestOfLine(u[12..]) {
      ShapedFromParts(s, scheme, www, "youtube.com");
    } else {
      ShapedFromParts(s, scheme, www, "youtu.be");
    }
  }

  lemma ShapedFromParts(s: string, scheme: string, www: string, host: string)
    requires HasPrefix(s, scheme)
    requires HasPrefix(s[|scheme|..], www)
    requires HasPrefix(s[|scheme|..][|www|..], host + "/")
    requires RestOfLine(s[|scheme|..][|www|..][|host| + 1..])
    ensures ShapedAs(s, scheme, www, host)
  {
    var t := s[|scheme|..];
    PrefixConcat(t, www, host + "/");
    PrefixConcat(s, scheme, www + (host + "/"));
    assert scheme + www + host + "/" == scheme + (www + (host + "/"));
    var n := |scheme + www + host| + 1;
    assert n == |scheme| + |www| + |host| + 1;
    assert t[|www|..][|host| + 1..] == s[n..];
  }

  /** One decomposition, walked through the matcher's groups. */
  lemma ShapedIsYoutubeUrl(s: string, scheme: string, www: string, host: string)
    requires scheme in Schemes && www in WwwParts && host in Hosts
    requires ShapedAs(s, scheme, www, host)
    ensures IsYoutubeUrl(s)
  {
    assert scheme + www + host + "/" == scheme + (www + (host + "/"));
    PrefixConcat(s, scheme, www + (host + "/"));
    var t := s[|scheme|..];
    PrefixConcat(t, www, host + "/");
    var u := t[|www|..];
    assert u[|host| + 1..] == s[|scheme + www + host| + 1..];
    assert HostAndPath(u);
    assert WwwHostAndPath(t);
  }

  /** `https://youtu.be/<id>`, as the search flow builds it, passes the
      pattern whenever the id is non-empty and on one line. */
  lemma {:induction false} ShortLinkIsYoutubeUrl(id: string)
    requires RestOfLine(id)
    ensures IsYoutubeUrl("https://youtu.be/" + id)
  {
    var s := "https://youtu.be/" + id;
    var t := s[8..];
    assert t == "youtu.be/" + id;
    assert t[..9] == "youtu.be/";
    assert t[9..] == id;
    assert HostAndPath(t);
  }
}
