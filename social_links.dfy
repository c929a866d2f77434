/** The classification of `href` targets into social platforms: ten
    substring markers tested in a fixed order, the first one found wins,
    and a later link for a platform replaces an earlier one. */
module SocialLinks {
  import opened PyStr

  /** The `(marker, platform)` pairs of the `if`/`elif` chain, in test order. */
  const Platforms: seq<(string, string)> := [
    ("facebook.com", "facebook"), ("twitter.com", "twitter"), ("linkedin.com", "linkedin"),
    ("youtube.com", "youtube"), ("twitch.tv", "twitch"), ("reddit.com", "reddit"),
    ("pinterest.com", "pinterest"), ("instagram.com", "instagram"), ("tiktok.com", "tiktok"),
    ("discord.com", "discord")
  ]

  /** The ten platform names, the only keys `social_media_links` can hold. */
  const PlatformNames: set<string> :=
    {"facebook", "twitter", "linkedin", "youtube", "twitch", "reddit", "pinterest", "instagram", "tiktok", "discord"}

  /** The platform the markers `table[k..]` file `href` under. */
  function ClassifyFrom(href: string, table: seq<(string, string)>, k: nat): (p: Option<string>)
    requires k <= |table|
    decreases |table| - k
  {
    if k == |table| then None
    else if Contains(href, table[k].0) then Some(table[k].1)
    else ClassifyFrom(href, table, k + 1)
  }

  /** The platform an `href` is filed under, if any. */
  function Classify(href: string): Option<string> {
    ClassifyFrom(href, Platforms, 0)
  }

  /** The first marker of `table[k..]` that `href` contains decides its platform;
      when it contains none, it is not filed. */
  lemma {:induction false} ClassifyFirstMarker(href: string, table: seq<(string, string)>, k: nat)
    requires k <= |table|
    ensures ClassifyFrom(href, table, k).None? <==> forall j :: k <= j < |table| ==> !Contains(href, table[j].0)
    ensures ClassifyFrom(href, table, k).Some? ==>
      exists m :: (&& k <= m < |table|
                   && ClassifyFrom(href, table, k).value == table[m].1 && Contains(href, table[m].0)
                   && (forall j :: k <= j < m ==> !Contains(href, table[j].0)))
    decreases |table| - k
  {
    if k < |table| && !Contains(href, table[k].0) {
      ClassifyFirstMarker(href, table, k + 1);
      if ClassifyFrom(href, table, k).Some? {
        var m :| k + 1 <= m < |table|
          && ClassifyFrom(href, table, k).value == table[m].1 && Contains(href, table[m].0)
          && (forall j :: k + 1 <= j < m ==> !Contains(href, table[j].0));
        assert forall j :: k <= j < m ==> !Contains(href, table[j].0);
      }
    }
  }

  /** Every platform a link can be filed under is one of the ten names. */
  lemma ClassifyNames(href: string)
    ensures Classify(href).Some? ==> Classify(href).value in PlatformNames
  {
    ClassifyFirstMarker(href, Platforms, 0);
  }

  /** The links map the markers `table` build from `hrefs`, in document order. */
  function LinksWith(hrefs: seq<string>, table: seq<(string, string)>): map<string, string>
    decreases |hrefs|
  {
    if hrefs == [] then map[]
    else
      var m := LinksWith(hrefs[..|hrefs| - 1], table);
      var href := hrefs[|hrefs| - 1];
      match ClassifyFrom(href, table, 0)
      case Some(p) => m[p := href]
      case None => m
  }

  /** The loop over the links of a section: each `href` is filed under the
      platform of the first marker of `table` it contains, replacing an
      earlier link of that platform. */
  method FileLinks(hrefs: seq<string>, table: seq<(string, string)>) returns (links: map<string, string>)
    ensures links == LinksWith(hrefs, table)
  {
    links := map[];
    for i := 0 to |hrefs|
      invariant links == LinksWith(hrefs[..i], table)
    {
      var url := hrefs[i];
      assert hrefs[..i + 1][..i] == hrefs[..i];
      match ClassifyFrom(url, table, 0)
      case Some(platform) =>
        links := links[platform := url];
      case None =>
    }
    assert hrefs[..|hrefs|] == hrefs;
  }

  /** The `social_media_links` map after the links `hrefs`, in document order. */
  function Links(hrefs: seq<string>): map<string, string> {
    LinksWith(hrefs, Platforms)
  }

  /** Only the ten platform names are keys. */
  lemma {:induction false} LinksKeys(hrefs: seq<string>)
    ensures Links(hrefs).Keys <= PlatformNames
    decreases |hrefs|
  {
    if hrefs != [] {
      LinksKeys(hrefs[..|hrefs| - 1]);
      ClassifyNames(hrefs[|hrefs| - 1]);
    }
  }

  /** For any marker table: a platform has an entry exactly when some link is
      filed under it, and the entry is the last such link in document order. */
  lemma {:induction false} LinksLastWins(hrefs: seq<string>, table: seq<(string, string)>, p: string)
    ensures p in LinksWith(hrefs, table) <==> exists i :: 0 <= i < |hrefs| && ClassifyFrom(hrefs[i], table, 0) == Some(p)
    ensures p in LinksWith(hrefs, table) ==>
      exists i :: (&& 0 <= i < |hrefs| && ClassifyFrom(hrefs[i], table, 0) == Some(p)
                   && LinksWith(hrefs, table)[p] == hrefs[i]
                   && (forall j :: i < j < |hrefs| ==> ClassifyFrom(hrefs[j], table, 0) != Some(p)))
    decreases |hrefs|
  {
    if hrefs != [] {
      var init := hrefs[..|hrefs| - 1];
      var n := |hrefs| - 1;
      LinksLastWins(init, table, p);
      assert forall i :: 0 <= i < n ==> init[i] == hrefs[i];
      if ClassifyFrom(hrefs[n], table, 0) == Some(p) {
        assert LinksWith(hrefs, table)[p] == hrefs[n];
      } else if p in LinksWith(init, table) {
        var i :| 0 <= i < n && ClassifyFrom(init[i], table, 0) == Some(p)
          && LinksWith(init, table)[p] == init[i] && (forall j :: i < j < n ==> ClassifyFrom(init[j], table, 0) != Some(p));
        assert LinksWith(hrefs, table)[p] == hrefs[i];
      }
    }
  }
}
