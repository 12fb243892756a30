/** The avatar pass of the sync script (`processAvatars`): every profile
    picture that could be fetched becomes an entry with its published
    address and a timestamp, and entries already in `avatars.json` with the
    same address are kept instead of the new ones. */
module Avatars {
  import opened Wrappers
  import opened Catalog
  import opened Naming

  /** An entry of `avatars.json`. `createdAt` is the `new Date()` taken when
      the avatar was fetched, as an opaque timestamp. */
  datatype Avatar = Avatar(avatarSrc: string, createdAt: int)

  /** No two entries share an address. */
  predicate DistinctSrcs(avs: seq<Avatar>) {
    forall i, j :: 0 <= i < j < |avs| ==> avs[i].avatarSrc != avs[j].avatarSrc
  }

  /** `file.find(({ avatarSrc }) => result.avatarSrc === avatarSrc)`: the
      first entry with address `src`, or nothing. */
  function FindAvatar(file: seq<Avatar>, src: string): (r: Option<Avatar>)
    ensures r.None? <==> forall i :: 0 <= i < |file| ==> file[i].avatarSrc != src
    ensures r.Some? ==>
      r.value.avatarSrc == src &&
      exists i :: 0 <= i < |file| && file[i] == r.value && (forall j :: 0 <= j < i ==> file[j].avatarSrc != src)
    decreases |file|
  {
    if |file| == 0 then None
    else if file[0].avatarSrc == src then Some(file[0])
    else
      var r := FindAvatar(file[1..], src);
      assert forall i :: 0 <= i < |file| - 1 ==> file[1..][i] == file[i + 1];
      if r.Some? then
        ghost var i :| 0 <= i < |file| - 1 && file[1..][i] == r.value && r.value.avatarSrc == src &&
          forall j :: 0 <= j < i ==> file[1..][j].avatarSrc != src;
        assert file[i + 1] == r.value;
        assert forall j :: 0 <= j < i + 1 ==> file[j].avatarSrc != src by {
          forall j | 0 <= j < i + 1 ensures file[j].avatarSrc != src {
            if j > 0 {
              assert file[j] == file[1..][j - 1];
            }
          }
        }
        r
      else
        r
  }

  /** Lines 276-280: each new result is replaced by the existing entry with
      its address when there is one. */
  function MergeAvatars(results: seq<Avatar>, file: seq<Avatar>): (m: seq<Avatar>)
    ensures |m| == |results|
    ensures forall i :: 0 <= i < |results| ==> m[i].avatarSrc == results[i].avatarSrc
    ensures forall i :: 0 <= i < |results| ==>
      (m[i] == results[i] && forall k :: 0 <= k < |file| ==> file[k].avatarSrc != results[i].avatarSrc) ||
      (exists k :: 0 <= k < |file| && m[i] == file[k] &&
         forall j :: 0 <= j < k ==> file[j].avatarSrc != results[i].avatarSrc)
  {
    seq(|results|, i requires 0 <= i < |results| => FindAvatar(file, results[i].avatarSrc).GetOr(results[i]))
  }

  /** An existing entry whose address no new result has is dropped. */
  lemma MergeDropsUnmatched(results: seq<Avatar>, file: seq<Avatar>, a: Avatar)
    requires forall i :: 0 <= i < |results| ==> results[i].avatarSrc != a.avatarSrc
    ensures a !in MergeAvatars(results, file)
  {
  }

  /** Against an empty file the merge keeps the new results as they are. */
  lemma MergeIntoEmpty(results: seq<Avatar>)
    ensures MergeAvatars(results, []) == results
  {
  }

  /** In a file without duplicate addresses, the entry found for an
      entry's own address is that entry. */
  lemma FindOwnAvatar(m: seq<Avatar>, i: nat)
    requires i < |m| && DistinctSrcs(m)
    ensures FindAvatar(m, m[i].avatarSrc) == Some(m[i])
  {
    var src := m[i].avatarSrc;
    var r := FindAvatar(m, src);
    var k :| 0 <= k < |m| && m[k] == r.value && (forall j :: 0 <= j < k ==> m[j].avatarSrc != src);
    if k < i {
      assert m[k].avatarSrc == src;
    }
  }

  /** Merging results into a file that already holds, position by
      position, an entry with each result's address changes nothing. */
  lemma MergeIntoOwn(results: seq<Avatar>, m: seq<Avatar>)
    requires |results| == |m|
    requires forall i :: 0 <= i < |m| ==> results[i].avatarSrc == m[i].avatarSrc
    requires DistinctSrcs(m)
    ensures MergeAvatars(results, m) == m
  {
    forall i | 0 <= i < |m|
      ensures MergeAvatars(results, m)[i] == m[i]
    {
      FindOwnAvatar(m, i);
    }
  }

  /** Merging results whose addresses are those of an earlier merge, and
      distinct, changes nothing: every entry (and its `createdAt`) of the
      earlier run is kept. */
  lemma MergeStable(r1: seq<Avatar>, r2: seq<Avatar>, file: seq<Avatar>)
    requires |r1| == |r2|
    requires forall i :: 0 <= i < |r1| ==> r1[i].avatarSrc == r2[i].avatarSrc
    requires DistinctSrcs(r1)
    ensures MergeAvatars(r2, MergeAvatars(r1, file)) == MergeAvatars(r1, file)
  {
    var m := MergeAvatars(r1, file);
    assert DistinctSrcs(m);
    MergeIntoOwn(r2, m);
  }

  /** The entries the fetch loop of lines 258-272 pushes, for the icons of
      `icons`: an entry per icon whose picture arrived, stamped by the clock
      at that icon's turn. */
  function FetchedAvatars(cfg: GitHub, icons: seq<string>, fetch: Fetch, now: nat -> int): seq<Avatar>
    decreases |icons|
  {
    if |icons| == 0 then []
    else
      var n := |icons| - 1;
      FetchedAvatars(cfg, icons[..n], fetch, now) +
        (if fetch(AvatarFetchUrl(icons[n])).Some? then [Avatar(AvatarUrl(cfg, icons[n]), now(n))] else [])
  }

  /** An entry is pushed exactly for each icon whose picture arrived, with
      that icon's published address. */
  lemma {:induction false} FetchedAvatarsMembers(cfg: GitHub, icons: seq<string>, fetch: Fetch, now: nat -> int)
    ensures forall a :: a in FetchedAvatars(cfg, icons, fetch, now) <==>
      exists i :: 0 <= i < |icons| && fetch(AvatarFetchUrl(icons[i])).Some? && a == Avatar(AvatarUrl(cfg, icons[i]), now(i))
    decreases |icons|
  {
    if |icons| > 0 {
      var n := |icons| - 1;
      FetchedAvatarsMembers(cfg, icons[..n], fetch, now);
      assert forall i :: 0 <= i < n ==> icons[..n][i] == icons[i];
    }
  }

  /** The addresses pushed do not depend on the clock. */
  lemma {:induction false} FetchedSrcs(cfg: GitHub, icons: seq<string>, fetch: Fetch, now1: nat -> int, now2: nat -> int)
    ensures |FetchedAvatars(cfg, icons, fetch, now1)| == |FetchedAvatars(cfg, icons, fetch, now2)|
    ensures forall i :: 0 <= i < |FetchedAvatars(cfg, icons, fetch, now1)| ==>
      FetchedAvatars(cfg, icons, fetch, now1)[i].avatarSrc == FetchedAvatars(cfg, icons, fetch, now2)[i].avatarSrc
    decreases |icons|
  {
    if |icons| > 0 {
      FetchedSrcs(cfg, icons[..|icons| - 1], fetch, now1, now2);
    }
  }

  /** Distinct icons give distinct addresses. */
  lemma {:induction false} FetchedDistinct(cfg: GitHub, icons: seq<string>, fetch: Fetch, now: nat -> int)
    requires forall i, j :: 0 <= i < j < |icons| ==> icons[i] != icons[j]
    ensures DistinctSrcs(FetchedAvatars(cfg, icons, fetch, now))
    decreases |icons|
  {
    if |icons| > 0 {
      var n := |icons| - 1;
      var init := icons[..n];
      FetchedDistinct(cfg, init, fetch, now);
      if fetch(AvatarFetchUrl(icons[n])).Some? {
        var prev := FetchedAvatars(cfg, init, fetch, now);
        FetchedAvatarsMembers(cfg, init, fetch, now);
        forall k | 0 <= k < |prev|
          ensures prev[k].avatarSrc != AvatarUrl(cfg, icons[n])
        {
          assert prev[k] in prev;
          var i :| 0 <= i < n && fetch(AvatarFetchUrl(init[i])).Some? && prev[k] == Avatar(AvatarUrl(cfg, init[i]), now(i));
          assert init[i] == icons[i];
          RawUrlInjective(cfg, AvatarPath(icons[i]), AvatarPath(icons[n]));
          AvatarPathInjective(icons[i], icons[n]);
        }
      }
    }
  }

  /** What `avatars.json` receives: the fetched entries merged with the
      file read back. */
  function SavedAvatars(cfg: GitHub, icons: seq<string>, fetch: Fetch, now: nat -> int, file: seq<Avatar>): seq<Avatar> {
    MergeAvatars(FetchedAvatars(cfg, icons, fetch, now), file)
  }

  /** A second sync over the same distinct icons with the same pictures
      available, at any later time, writes back exactly the file the first
      one wrote: the original timestamps survive. */
  lemma ResyncKeepsAvatars(cfg: GitHub, icons: seq<string>, fetch: Fetch, now1: nat -> int, now2: nat -> int, file: seq<Avatar>)
    requires forall i, j :: 0 <= i < j < |icons| ==> icons[i] != icons[j]
    ensures SavedAvatars(cfg, icons, fetch, now2, SavedAvatars(cfg, icons, fetch, now1, file)) == SavedAvatars(cfg, icons, fetch, now1, file)
  {
    FetchedSrcs(cfg, icons, fetch, now1, now2);
    FetchedDistinct(cfg, icons, fetch, now1);
    MergeStable(FetchedAvatars(cfg, icons, fetch, now1), FetchedAvatars(cfg, icons, fetch, now2), file);
  }

  /** Lines 253-282. `now(i)` is the clock read at the `i`-th icon. */
  method ProcessAvatars(cfg: GitHub, icons: seq<string>, fetch: Fetch, now: nat -> int, file: seq<Avatar>, isUpdateFile: bool)
    returns (written: Option<seq<Avatar>>)
    ensures written == if isUpdateFile then Some(SavedAvatars(cfg, icons, fetch, now, file)) else None
  {
    var gitHubUrl := RawBase(cfg);
    var dirPath := "images/avatars";
    var results: seq<Avatar> := [];
    for i := 0 to |icons|
      invariant results == FetchedAvatars(cfg, icons[..i], fetch, now)
    {
      assert icons[..i + 1][..i] == icons[..i];
      var iconPath := icons[i];
      var path := dirPath + "/" + iconPath + ".png";
      var avatarGitHubUrl := gitHubUrl + "/" + path;
      var buffer := fetch(AvatarFetchUrl(iconPath));
      if buffer.None? {
        continue;
      }
      results := results + [Avatar(avatarGitHubUrl, now(i))];
    }
    assert icons[..|icons|] == icons;
    if isUpdateFile {
      written := Some(MergeAvatars(results, file));
    } else {
      written := None;
    }
  }
}
