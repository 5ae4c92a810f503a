/** Which local Docker images the cleaner may remove. */
module ImageRetention {
  /** A local image as inspected; tags are full references. */
  datatype Image = Image(id: string, created: int, tags: seq<string>)

  // ---- the repository of a tag ----

  /** Where c last occurs, or -1. */
  function LastIndex(s: string, c: char): (i: int)
    ensures -1 <= i < |s|
  {
    if s == [] then -1
    else if s[|s| - 1] == c then |s| - 1
    else LastIndex(s[..|s| - 1], c)
  }

  /** The part of a tag before its last colon, if that colon is in the last path component. */
  function RepoOf(tag: string): string {
    var colon := LastIndex(tag, ':');
    if colon > LastIndex(tag, '/') then tag[..colon] else tag
  }

  lemma {:induction false} LastIndexIs(s: string, c: char, i: int)
    requires -1 <= i < |s| && (i >= 0 ==> s[i] == c) && forall j :: i < j < |s| ==> s[j] != c
    ensures LastIndex(s, c) == i
  {
    if s != [] && i < |s| - 1 {
      LastIndexIs(s[..|s| - 1], c, i);
    }
  }

  lemma {:induction false} LastIndexLast(s: string, c: char)
    ensures LastIndex(s, c) >= 0 ==> s[LastIndex(s, c)] == c
    ensures forall j :: LastIndex(s, c) < j < |s| ==> s[j] != c
  {
    if s != [] && s[|s| - 1] != c {
      LastIndexLast(s[..|s| - 1], c);
      assert forall j :: 0 <= j < |s| - 1 ==> s[..|s| - 1][j] == s[j];
    }
  }

  /** A colon counts exactly when the last path component has one. */
  lemma ColonCounts(tag: string)
    ensures LastIndex(tag, ':') > LastIndex(tag, '/') <==> ':' in tag[LastIndex(tag, '/') + 1..]
  {
    var colon, slash := LastIndex(tag, ':'), LastIndex(tag, '/');
    LastIndexLast(tag, ':');
    if colon > slash {
      assert tag[slash + 1..][colon - slash - 1] == ':';
    }
  }

  /** A reference without a version names its repository, even behind a registry port; a version is cut off. */
  lemma RepoOfReference(repo: string, version: string)
    requires ':' !in version && '/' !in version
    ensures RepoOf(repo + ":" + version) == repo
    ensures ':' !in repo[LastIndex(repo, '/') + 1..] ==> RepoOf(repo) == repo
  {
    var tag := repo + ":" + version;
    var colon := |repo|;
    assert tag[colon] == ':';
    forall j | colon < j < |tag| ensures tag[j] != ':' && tag[j] != '/' {
      assert tag[j] == version[j - colon - 1];
    }
    LastIndexIs(tag, ':', colon);
    LastIndexLast(tag, '/');
    assert tag[..colon] == repo;
    ColonCounts(repo);
  }

  // ---- the listing ----

  function IdsOf(images: seq<Image>): set<string> {
    set i | 0 <= i < |images| :: images[i].id
  }

  /** The listing repeats an image once per tag; the first row of each id counts. */
  function FirstById(rows: seq<Image>): (images: seq<Image>) {
    if rows == [] then []
    else
      var before, last := FirstById(rows[..|rows| - 1]), rows[|rows| - 1];
      if last.id in IdsOf(before) then before else before + [last]
  }

  predicate DistinctIds(images: seq<Image>) {
    forall i, j :: 0 <= i < j < |images| ==> images[i].id != images[j].id
  }

  lemma {:induction false} FirstByIdDistinct(rows: seq<Image>)
    ensures DistinctIds(FirstById(rows))
    ensures IdsOf(FirstById(rows)) == IdsOf(rows)
  {
    if rows != [] {
      var n := |rows| - 1;
      FirstByIdDistinct(rows[..n]);
      assert rows == rows[..n] + [rows[n]];
      IdsSnoc(rows[..n], rows[n]);
      IdsSnoc(FirstById(rows[..n]), rows[n]);
    }
  }

  lemma IdsSnoc(images: seq<Image>, last: Image)
    ensures IdsOf(images + [last]) == IdsOf(images) + {last.id}
    ensures forall i :: 0 <= i < |images| ==> images[i].id in IdsOf(images)
  {
    var all := images + [last];
    forall id | id in IdsOf(all) ensures id in IdsOf(images) + {last.id} {
      var i :| 0 <= i < |all| && all[i].id == id;
      assert i < |images| ==> images[i].id == id;
    }
    forall id | id in IdsOf(images) + {last.id} ensures id in IdsOf(all) {
      if id in IdsOf(images) {
        var i :| 0 <= i < |images| && images[i].id == id;
        assert all[i].id == id;
      } else {
        assert all[|images|].id == id;
      }
    }
  }

  // ---- repository groups ----

  /** The image, once for each of its tags in the repository. */
  function Entries(image: Image, tags: seq<string>, repo: string): seq<Image> {
    if tags == [] then []
    else
      var before := Entries(image, tags[..|tags| - 1], repo);
      if RepoOf(tags[|tags| - 1]) == repo then before + [image] else before
  }

  function Group(images: seq<Image>, repo: string): seq<Image> {
    if images == [] then []
    else
      var last := images[|images| - 1];
      Group(images[..|images| - 1], repo) + Entries(last, last.tags, repo)
  }

  predicate TaggedIn(image: Image, repo: string) {
    exists i :: 0 <= i < |image.tags| && RepoOf(image.tags[i]) == repo
  }

  /** Python's max over the group: the first of its newest images. */
  function Newest(group: seq<Image>): (image: Image)
    requires group != []
    ensures image in group
    ensures forall other :: other in group ==> other.created <= image.created
  {
    var n := |group| - 1;
    if n == 0 then group[0]
    else
      assert group == group[..n] + [group[n]];
      var best := Newest(group[..n]);
      if group[n].created > best.created then group[n] else best
  }

  lemma EntriesSnoc(image: Image, tags: seq<string>, last: string, repo: string)
    ensures Entries(image, tags + [last], repo) ==
            if RepoOf(last) == repo then Entries(image, tags, repo) + [image] else Entries(image, tags, repo)
  {
    assert (tags + [last])[..|tags|] == tags;
  }

  lemma {:induction false} EntriesAre(image: Image, tags: seq<string>, repo: string)
    ensures forall e :: e in Entries(image, tags, repo) ==> e == image
    ensures Entries(image, tags, repo) != [] <==> exists i :: 0 <= i < |tags| && RepoOf(tags[i]) == repo
  {
    if tags != [] {
      var before, last := tags[..|tags| - 1], tags[|tags| - 1];
      EntriesAre(image, before, repo);
      assert tags == before + [last];
      EntriesSnoc(image, before, last, repo);
      if RepoOf(last) == repo {
        assert RepoOf(tags[|before|]) == repo;
      } else {
        assert forall i :: 0 <= i < |before| ==> tags[i] == before[i];
      }
    }
  }

  lemma EntriesHas(image: Image, repo: string, e: Image)
    ensures e in Entries(image, image.tags, repo) <==> e == image && TaggedIn(image, repo)
  {
    EntriesAre(image, image.tags, repo);
    var all := Entries(image, image.tags, repo);
    assert all != [] ==> all[0] in all;
  }

  lemma GroupSnoc(images: seq<Image>, last: Image, repo: string)
    ensures Group(images + [last], repo) == Group(images, repo) + Entries(last, last.tags, repo)
  {
    assert (images + [last])[..|images|] == images;
  }

  lemma {:induction false} GroupHas(images: seq<Image>, repo: string, image: Image)
    ensures image in Group(images, repo) <==> image in images && TaggedIn(image, repo)
  {
    if images != [] {
      var before, last := images[..|images| - 1], images[|images| - 1];
      GroupHas(before, repo, image);
      EntriesHas(last, repo, image);
      GroupSnoc(before, last, repo);
      assert images == before + [last];
    }
  }

  /** Listed before, by position. */
  predicate Before(images: seq<Image>, a: Image, b: Image) {
    exists i, j :: 0 <= i < j < |images| && images[i] == a && images[j] == b
  }

  /** `a` wins against `b`: it is newer, or as new and listed earlier. */
  predicate Beats(images: seq<Image>, a: Image, b: Image) {
    a.created > b.created || (a.created == b.created && Before(images, a, b))
  }

  ghost predicate Wins(images: seq<Image>, repo: string, image: Image) {
    && image in images && TaggedIn(image, repo)
    && forall other :: other in images && TaggedIn(other, repo) && other != image ==> Beats(images, image, other)
  }

  lemma BeatsLonger(images: seq<Image>, last: Image, a: Image, b: Image)
    requires Beats(images, a, b)
    ensures Beats(images + [last], a, b)
  {
    if a.created == b.created {
      var i, j :| 0 <= i < j < |images| && images[i] == a && images[j] == b;
      assert (images + [last])[i] == a && (images + [last])[j] == b;
    }
  }

  lemma {:induction false} NewestOfCopies(group: seq<Image>, copies: seq<Image>, image: Image)
    requires forall e :: e in copies ==> e == image
    requires group + copies != []
    ensures Newest(group + copies) ==
            if group == [] then image
            else if copies != [] && image.created > Newest(group).created then image
            else Newest(group)
  {
    if copies == [] {
      assert group + copies == group;
    } else {
      var n := |copies| - 1;
      assert copies == copies[..n] + [copies[n]];
      assert copies[n] in copies && forall e :: e in copies[..n] ==> e in copies;
      assert (group + copies)[..|group + copies| - 1] == group + copies[..n];
      if group + copies[..n] != [] {
        NewestOfCopies(group, copies[..n], image);
      } else {
        assert group + copies == [image];
      }
    }
  }

  /** The kept image of a repository is the one that beats every other image tagged in it. */
  lemma {:induction false} NewestWins(images: seq<Image>, repo: string)
    requires DistinctIds(images) && Group(images, repo) != []
    ensures Wins(images, repo, Newest(Group(images, repo)))
  {
    var before, last := images[..|images| - 1], images[|images| - 1];
    assert images == before + [last];
    if Group(before, repo) != [] {
      NewestWins(before, repo);
    }
    NewestStep(before, last, repo);
    var best := Newest(Group(images, repo));
    GroupHas(images, repo, best);
    forall other | other in images && TaggedIn(other, repo) && other != best
      ensures Beats(images, best, other)
    {
      GroupHas(before, repo, other);
      if Group(before, repo) != [] {
        WinnerStays(before, last, repo, best, other);
      }
    }
  }

  lemma NewestStep(before: seq<Image>, last: Image, repo: string)
    requires Group(before + [last], repo) != []
    ensures Newest(Group(before + [last], repo)) ==
            if Group(before, repo) == [] then last
            else if TaggedIn(last, repo) && last.created > Newest(Group(before, repo)).created then last
            else Newest(Group(before, repo))
  {
    GroupSnoc(before, last, repo);
    EntriesAre(last, last.tags, repo);
    NewestOfCopies(Group(before, repo), Entries(last, last.tags, repo), last);
  }

  lemma WinnerStays(before: seq<Image>, last: Image, repo: string, best: Image, other: Image)
    requires Group(before, repo) != [] && Wins(before, repo, Newest(Group(before, repo)))
    requires other in before + [last] && TaggedIn(other, repo) && other != best
    requires best == if TaggedIn(last, repo) && last.created > Newest(Group(before, repo)).created
                     then last else Newest(Group(before, repo))
    ensures Beats(before + [last], best, other)
  {
    var prior := Newest(Group(before, repo));
    GroupHas(before, repo, other);
    if best == prior {
      if other in before {
        BeatsLonger(before, last, best, other);
      } else {
        var i :| 0 <= i < |before| && before[i] == best;
        assert (before + [last])[i] == best && (before + [last])[|before|] == other;
      }
    }
  }

  /** At most one image wins a repository. */
  lemma WinnerUnique(images: seq<Image>, repo: string, a: Image, b: Image)
    requires DistinctIds(images) && Wins(images, repo, a) && Wins(images, repo, b)
    ensures a == b
  {
    if a != b {
      NeverBoth(images, a, b);
    }
  }

  // ---- what may go ----

  /** The id is that of the group's newest image. */
  predicate KeptFor(group: seq<Image>, id: string) {
    group != [] && Newest(group).id == id
  }

  ghost predicate Candidate(images: seq<Image>, protectedIds: set<string>, cutoff: int, image: Image) {
    && image in images && image.id !in protectedIds && image.created < cutoff
    && forall repo :: !KeptFor(Group(images, repo), image.id)
  }

  lemma SameIdSameImage(images: seq<Image>, a: Image, b: Image)
    requires DistinctIds(images) && a in images && b in images && a.id == b.id
    ensures a == b
  {
    var i :| 0 <= i < |images| && images[i] == a;
    var j :| 0 <= j < |images| && images[j] == b;
    assert i == j;
  }

  /**
   * An image is a candidate if and only if no container references it, it is older than the cutoff, and
   * in each repository it is tagged in some other image beats it; untagged images need only the first two.
   */
  lemma CandidateIff(images: seq<Image>, protectedIds: set<string>, cutoff: int, image: Image)
    requires DistinctIds(images) && image in images
    ensures Candidate(images, protectedIds, cutoff, image) <==>
              && image.id !in protectedIds && image.created < cutoff
              && (forall repo :: TaggedIn(image, repo) ==> Beaten(images, repo, image))
  {
    forall repo
      ensures KeptFor(Group(images, repo), image.id) <==> TaggedIn(image, repo) && !Beaten(images, repo, image)
    {
      KeptUnlessBeaten(images, repo, image);
    }
  }

  predicate Beaten(images: seq<Image>, repo: string, image: Image) {
    exists other :: other in images && TaggedIn(other, repo) && Beats(images, other, image)
  }

  lemma KeptUnlessBeaten(images: seq<Image>, repo: string, image: Image)
    requires DistinctIds(images) && image in images
    ensures KeptFor(Group(images, repo), image.id) <==> TaggedIn(image, repo) && !Beaten(images, repo, image)
  {
    GroupHas(images, repo, image);
    if Group(images, repo) != [] {
      var best := Newest(Group(images, repo));
      NewestWins(images, repo);
      if best.id == image.id {
        SameIdSameImage(images, best, image);
        forall other | other in images && TaggedIn(other, repo) ensures !Beats(images, other, image) {
          NeverBoth(images, image, other);
        }
      } else if TaggedIn(image, repo) {
        assert Beats(images, best, image);
      }
    }
  }

  lemma NeverBoth(images: seq<Image>, a: Image, b: Image)
    requires DistinctIds(images) && (a == b || Beats(images, a, b))
    ensures !Beats(images, b, a)
  {
  }

  /**
   * Whichever candidates are removed, every repository that had a tagged image still has one that is as
   * new as all it had, and every image a container references stays.
   */
  lemma NewestSurvives(images: seq<Image>, protectedIds: set<string>, cutoff: int, left: set<Image>, repo: string)
    requires DistinctIds(images)
    requires forall image :: image in images && image !in left ==> Candidate(images, protectedIds, cutoff, image)
    requires exists image :: image in images && TaggedIn(image, repo)
    ensures exists image :: image in left && Wins(images, repo, image)
    ensures forall image :: image in images && image.id in protectedIds ==> image in left
    ensures forall image :: image in images && image.created >= cutoff ==> image in left
  {
    var tagged :| tagged in images && TaggedIn(tagged, repo);
    GroupHas(images, repo, tagged);
    NewestWins(images, repo);
    var best := Newest(Group(images, repo));
    assert KeptFor(Group(images, repo), best.id);
    assert best in images && !Candidate(images, protectedIds, cutoff, best);
  }

  // ---- the selection loops ----

  ghost predicate GroupsOf(byRepo: map<string, seq<Image>>, images: seq<Image>) {
    NoEmptyGroup(byRepo) && forall repo :: At(byRepo, repo) == Group(images, repo)
  }

  method FirstRows(rows: seq<Image>) returns (images: seq<Image>)
    ensures images == FirstById(rows) && DistinctIds(images)
  {
    images := [];
    var ids: set<string> := {};
    for i := 0 to |rows|
      invariant images == FirstById(rows[..i]) && ids == IdsOf(images)
    {
      assert rows[..i + 1][..i] == rows[..i];
      if rows[i].id !in ids {
        IdsSnoc(images, rows[i]);
        images := images + [rows[i]];
        ids := ids + {rows[i].id};
      }
    }
    assert rows[..|rows|] == rows;
    FirstByIdDistinct(rows);
  }

  lemma Join(byRepo: map<string, seq<Image>>, own: string, image: Image, repo: string)
    ensures At(byRepo[own := At(byRepo, own) + [image]], repo) ==
            if repo == own then At(byRepo, repo) + [image] else At(byRepo, repo)
  {
  }

  ghost predicate Joined(before: map<string, seq<Image>>, byRepo: map<string, seq<Image>>, image: Image, j: nat)
    requires j <= |image.tags|
  {
    forall repo :: At(byRepo, repo) == At(before, repo) + Entries(image, image.tags[..j], repo)
  }

  lemma JoinAt(base: seq<Image>, byRepo: map<string, seq<Image>>, image: Image, j: nat, own: string, repo: string)
    requires j < |image.tags| && own == RepoOf(image.tags[j])
    requires At(byRepo, repo) == base + Entries(image, image.tags[..j], repo)
    ensures At(byRepo[own := At(byRepo, own) + [image]], repo) == base + Entries(image, image.tags[..j + 1], repo)
  {
    Join(byRepo, own, image, repo);
    assert image.tags[..j + 1] == image.tags[..j] + [image.tags[j]];
    EntriesSnoc(image, image.tags[..j], image.tags[j], repo);
  }

  lemma JoinStep(before: map<string, seq<Image>>, byRepo: map<string, seq<Image>>, image: Image, j: nat, own: string)
    requires j < |image.tags| && Joined(before, byRepo, image, j) && own == RepoOf(image.tags[j])
    ensures Joined(before, byRepo[own := At(byRepo, own) + [image]], image, j + 1)
  {
    var after := byRepo[own := At(byRepo, own) + [image]];
    forall repo ensures At(after, repo) == At(before, repo) + Entries(image, image.tags[..j + 1], repo) {
      JoinAt(At(before, repo), byRepo, image, j, own, repo);
    }
  }

  /** The inner loop: an image joins the group of each of its tags. */
  method AddTags(before: map<string, seq<Image>>, image: Image) returns (byRepo: map<string, seq<Image>>)
    requires NoEmptyGroup(before)
    ensures NoEmptyGroup(byRepo) && Joined(before, byRepo, image, |image.tags|)
  {
    byRepo := before;
    assert image.tags[..0] == [];
    for j := 0 to |image.tags|
      invariant NoEmptyGroup(byRepo) && Joined(before, byRepo, image, j)
    {
      var own := RepoOf(image.tags[j]);
      JoinStep(before, byRepo, image, j, own);
      byRepo := byRepo[own := At(byRepo, own) + [image]];
    }
  }

  method GroupByRepo(images: seq<Image>) returns (byRepo: map<string, seq<Image>>)
    ensures GroupsOf(byRepo, images)
  {
    byRepo := map[];
    for i := 0 to |images|
      invariant GroupsOf(byRepo, images[..i])
    {
      ghost var before := byRepo;
      byRepo := AddTags(byRepo, images[i]);
      assert images[i].tags[..|images[i].tags|] == images[i].tags;
      assert images[..i + 1] == images[..i] + [images[i]];
      forall repo ensures At(byRepo, repo) == Group(images[..i + 1], repo) {
        GroupSnoc(images[..i], images[i], repo);
        assert At(before, repo) == Group(images[..i], repo);
      }
    }
    assert images[..|images|] == images;
  }

  predicate NoEmptyGroup(byRepo: map<string, seq<Image>>) {
    forall repo :: repo in byRepo ==> byRepo[repo] != []
  }

  /** A defaultdict lookup. */
  function At(byRepo: map<string, seq<Image>>, repo: string): seq<Image> {
    if repo in byRepo then byRepo[repo] else []
  }

  /** The newest image of a repository that is still to be visited does not count yet. */
  ghost predicate KeptBut(images: seq<Image>, todo: set<string>, id: string) {
    exists repo :: repo !in todo && KeptFor(Group(images, repo), id)
  }

  lemma Visited(images: seq<Image>, todo: set<string>, repo: string, id: string)
    requires repo in todo
    ensures KeptBut(images, todo - {repo}, id) <==> KeptBut(images, todo, id) || KeptFor(Group(images, repo), id)
  {
    if KeptBut(images, todo, id) {
      var other :| other !in todo && KeptFor(Group(images, other), id);
      assert other !in todo - {repo};
    }
  }

  lemma NoneVisited(images: seq<Image>, byRepo: map<string, seq<Image>>, id: string)
    requires GroupsOf(byRepo, images)
    ensures !KeptBut(images, byRepo.Keys, id)
  {
    forall repo | repo !in byRepo ensures Group(images, repo) == [] {
      assert At(byRepo, repo) == Group(images, repo);
    }
  }

  method Keepers(protectedIds: set<string>, byRepo: map<string, seq<Image>>, ghost images: seq<Image>)
    returns (keep: set<string>)
    requires GroupsOf(byRepo, images)
    ensures forall id :: id in keep <==> id in protectedIds || KeptBut(images, {}, id)
  {
    keep := protectedIds;
    var todo := byRepo.Keys;
    forall id ensures !KeptBut(images, todo, id) {
      NoneVisited(images, byRepo, id);
    }
    while todo != {}
      invariant todo <= byRepo.Keys
      invariant forall id :: id in keep <==> id in protectedIds || KeptBut(images, todo, id)
      decreases todo
    {
      var repo :| repo in todo;
      assert At(byRepo, repo) == Group(images, repo);
      forall id {
        Visited(images, todo, repo, id);
      }
      keep := keep + {Newest(byRepo[repo]).id};
      todo := todo - {repo};
    }
  }

  /** The final filter. */
  method Old(images: seq<Image>, keep: set<string>, cutoff: int) returns (candidates: seq<Image>)
    requires DistinctIds(images)
    ensures forall image :: image in candidates <==> image in images && image.id !in keep && image.created < cutoff
    ensures DistinctIds(candidates)
  {
    candidates := [];
    for i := 0 to |images|
      invariant forall image :: image in candidates <==>
                  image in images[..i] && image.id !in keep && image.created < cutoff
      invariant DistinctIds(candidates)
    {
      assert images[..i + 1] == images[..i] + [images[i]];
      if images[i].id !in keep && images[i].created < cutoff {
        forall k | 0 <= k < |candidates| ensures candidates[k].id != images[i].id {
          assert candidates[k] in candidates;
        }
        candidates := candidates + [images[i]];
      }
    }
    assert images[..|images|] == images;
  }

  /** The whole selection: exactly the candidates, each once. */
  method Select(rows: seq<Image>, containerImages: seq<string>, cutoff: int) returns (candidates: seq<Image>)
    ensures forall image :: image in candidates <==>
              Candidate(FirstById(rows), Referenced(containerImages), cutoff, image)
    ensures DistinctIds(candidates)
  {
    var protectedIds: set<string> := {};
    for i := 0 to |containerImages|
      invariant protectedIds == Referenced(containerImages[..i])
    {
      ReferencedSnoc(containerImages, i);
      if containerImages[i] != "" {
        protectedIds := protectedIds + {containerImages[i]};
      }
    }
    assert containerImages[..|containerImages|] == containerImages;
    var images := FirstRows(rows);
    var byRepo := GroupByRepo(images);
    var keep := Keepers(protectedIds, byRepo, images);
    candidates := Old(images, keep, cutoff);
    forall image | image in images
      ensures image.id !in keep && image.created < cutoff <==> Candidate(images, protectedIds, cutoff, image)
    {
      assert KeptBut(images, {}, image.id) <==> exists repo :: KeptFor(Group(images, repo), image.id);
    }
  }

  /** The image ids that any container, running or not, refers to. */
  function Referenced(containerImages: seq<string>): set<string> {
    set i | 0 <= i < |containerImages| && containerImages[i] != "" :: containerImages[i]
  }

  lemma ReferencedSnoc(lines: seq<string>, i: nat)
    requires i < |lines|
    ensures Referenced(lines[..i + 1]) == Referenced(lines[..i]) + (if lines[i] != "" then {lines[i]} else {})
  {
    var a, b := Referenced(lines[..i + 1]), Referenced(lines[..i]);
    forall id | id in a ensures id in b || id == lines[i] {
      var k :| 0 <= k < i + 1 && lines[..i + 1][k] == id;
      assert k < i ==> lines[..i][k] == id;
    }
    forall id | id in b ensures id in a {
      var k :| 0 <= k < i && lines[..i][k] == id && id != "";
      assert lines[..i + 1][k] == id;
    }
    if lines[i] != "" {
      assert lines[..i + 1][i] == lines[i];
    }
  }
}
