/**
 * The profile store of the link-in-bio page
 * (src/frontend/src/features/profile/useProfileLocalStorage.ts): the three
 * one-time migrations and the link clean-up run when a stored profile is
 * loaded, the load itself, and the four mutations, all over an explicit
 * object standing for the browser's `localStorage`.
 *
 * Each migration is a method that reads and writes its done flag in storage
 * as the source does; it is proved against a pure step function
 * (`SnapchatStep`, `EmailStep`, `BioStep`) that says what the step returns
 * and whether it writes its flag, and the lemmas below are about those
 * functions.
 */
module ProfileStore {
  import opened ProfileTypes
  import opened Strings

  const STORAGE_KEY: string := "linktree_profile_v1"
  const MIGRATION_KEY: string := "linktree_snapchat_migration_v1"
  const EMAIL_MIGRATION_KEY: string := "linktree_email_migration_v1"
  const BIO_MIGRATION_KEY: string := "linktree_bio_migration_v1"
  /** Same text as `DEFAULT_SNAPCHAT_URL`, in the same pieces. */
  const SNAPCHAT_URL: string :=
    "https://www.snapchat.com/add/" + "irfan_jujara1?share_" + "id=" + "C0cEQ9" + "X" + "kCtE&locale=en-US"
  const SNAPCHAT_LABEL: string := "Snapchat"
  const OLD_DEFAULT_BIO: string := "Welcome to my page! Connect with me through the links below."
  /** The value a done flag holds. */
  const DONE: string := "true"

  /** `JSON.parse` of the stored text, read as a profile record; `None` when
      parsing fails or the value is not a profile record. */
  type Parser = string -> Option<ProfileData>

  /** `JSON.stringify` of a profile record. */
  type Serializer = ProfileData -> string

  function Lookup(items: map<string, string>, key: string): Option<string> {
    if key in items then Some(items[key]) else None
  }

  /** The browser's `localStorage`. */
  class LocalStorage {
    var items: map<string, string>

    constructor (items: map<string, string>)
      ensures this.items == items
    {
      this.items := items;
    }

    /** `getItem`; `None` stands for `null`. */
    function GetItem(key: string): Option<string>
      reads this
    {
      Lookup(items, key)
    }

    /** `setItem` */
    method SetItem(key: string, value: string)
      modifies this
      ensures items == old(items)[key := value]
    {
      items := items[key := value];
    }
  }

  /** A migration counts as done only when its key holds exactly "true". */
  predicate IsDone(flag: Option<string>) {
    flag == Some(DONE)
  }

  /** The storage after a step that writes its done flag when `marks` holds. */
  function Mark(items: map<string, string>, key: string, marks: bool): map<string, string> {
    if marks then items[key := DONE] else items
  }

  /** What a migration step returns, and whether it writes its done flag. */
  datatype StepResult = StepResult(profile: ProfileData, marksDone: bool)

  // ---------------------------------------------------------------------
  // The Snapchat migration
  // ---------------------------------------------------------------------

  /** The `findIndex` search of the Snapchat migration: the first index
      whose URL is the Snapchat URL, or -1 when there is none. */
  function SnapchatIndex(links: seq<ProfileLink>): (r: int)
    ensures -1 <= r < |links|
    ensures r == -1 <==> forall k :: 0 <= k < |links| ==> links[k].url != SNAPCHAT_URL
    ensures r != -1 ==> links[r].url == SNAPCHAT_URL
    ensures forall k :: 0 <= k < r ==> links[k].url != SNAPCHAT_URL
  {
    if links == [] then -1
    else if links[0].url == SNAPCHAT_URL then 0
    else
      var r := SnapchatIndex(links[1..]);
      if r == -1 then -1 else r + 1
  }

  /** The Snapchat migration, given whether its flag is done. The relabelling
      branch ignores the flag and does not write it. */
  function SnapchatStep(p: ProfileData, done: bool): StepResult {
    var i := SnapchatIndex(p.links);
    if i != -1 then
      if p.links[i].linkLabel != SNAPCHAT_LABEL then
        StepResult(p.(links := p.links[i := p.links[i].(linkLabel := SNAPCHAT_LABEL)]), false)
      else
        StepResult(p, !done)
    else if !done then
      StepResult(p.(links := p.links + [ProfileLink(SNAPCHAT_LABEL, SNAPCHAT_URL)]), true)
    else
      StepResult(p, false)
  }

  /** `migrateProfileWithSnapchat` */
  method MigrateProfileWithSnapchat(storage: LocalStorage, profile: ProfileData) returns (r: ProfileData)
    modifies storage
    ensures var s := SnapchatStep(profile, IsDone(old(storage.GetItem(MIGRATION_KEY))));
            r == s.profile && storage.items == Mark(old(storage.items), MIGRATION_KEY, s.marksDone)
  {
    var migrationDone := storage.GetItem(MIGRATION_KEY);
    var snapchatIndex := SnapchatIndex(profile.links);
    if snapchatIndex != -1 {
      var updatedLinks := profile.links;
      if updatedLinks[snapchatIndex].linkLabel != SNAPCHAT_LABEL {
        updatedLinks := updatedLinks[snapchatIndex := updatedLinks[snapchatIndex].(linkLabel := SNAPCHAT_LABEL)];
        return profile.(links := updatedLinks);
      }
      if migrationDone != Some(DONE) {
        storage.SetItem(MIGRATION_KEY, DONE);
      }
      return profile;
    }
    if migrationDone != Some(DONE) {
      var migratedProfile := profile.(links := profile.links + [ProfileLink(SNAPCHAT_LABEL, SNAPCHAT_URL)]);
      storage.SetItem(MIGRATION_KEY, DONE);
      return migratedProfile;
    }
    return profile;
  }

  /** When some link has the Snapchat URL, only the first such link can
      change, and only its label, to "Snapchat"; the flag is written only
      when that label already was "Snapchat" and the flag was not done. */
  lemma SnapchatStepWhenPresent(p: ProfileData, done: bool)
    requires SnapchatIndex(p.links) != -1
    ensures var i, s := SnapchatIndex(p.links), SnapchatStep(p, done);
            && p.links[i].url == SNAPCHAT_URL
            && (forall k :: 0 <= k < i ==> p.links[k].url != SNAPCHAT_URL)
            && s.profile == p.(links := s.profile.links)
            && |s.profile.links| == |p.links|
            && (forall k :: 0 <= k < |p.links| && k != i ==> s.profile.links[k] == p.links[k])
            && s.profile.links[i] == ProfileLink(SNAPCHAT_LABEL, p.links[i].url)
            && (s.marksDone <==> p.links[i].linkLabel == SNAPCHAT_LABEL && !done)
  {
  }

  /** With no Snapchat link, a step whose flag is not done appends exactly one
      Snapchat link at the end and writes the flag; once the flag is done a
      missing Snapchat link is not added again. */
  lemma SnapchatStepWhenAbsent(p: ProfileData, done: bool)
    requires SnapchatIndex(p.links) == -1
    ensures !done ==> SnapchatStep(p, done) ==
                      StepResult(p.(links := p.links + [ProfileLink(SNAPCHAT_LABEL, SNAPCHAT_URL)]), true)
    ensures done ==> SnapchatStep(p, done) == StepResult(p, false)
  {
  }

  lemma {:induction false} SnapchatIndexAfterRelabel(links: seq<ProfileLink>, i: int, newLabel: string)
    requires 0 <= i < |links| && i == SnapchatIndex(links)
    ensures SnapchatIndex(links[i := links[i].(linkLabel := newLabel)]) == i
  {
    var links' := links[i := links[i].(linkLabel := newLabel)];
    var j := SnapchatIndex(links');
    assert links'[i].url == SNAPCHAT_URL;
    assert forall k :: 0 <= k < i ==> links'[k] == links[k];
  }

  lemma {:induction false} SnapchatIndexAfterAppend(links: seq<ProfileLink>, link: ProfileLink)
    requires SnapchatIndex(links) == -1 && link.url == SNAPCHAT_URL
    ensures SnapchatIndex(links + [link]) == |links|
  {
    var links' := links + [link];
    var j := SnapchatIndex(links');
    assert links'[|links|].url == SNAPCHAT_URL;
    assert forall k :: 0 <= k < |links| ==> links'[k] == links[k];
  }

  /** Running the Snapchat step a second time, with the flag as the first run
      left it, gives back the same profile (the flag may still be written). */
  lemma SnapchatStepIdempotent(p: ProfileData, done: bool)
    ensures var s := SnapchatStep(p, done);
            SnapchatStep(s.profile, done || s.marksDone).profile == s.profile
  {
    var i := SnapchatIndex(p.links);
    if i != -1 {
      if p.links[i].linkLabel != SNAPCHAT_LABEL {
        SnapchatIndexAfterRelabel(p.links, i, SNAPCHAT_LABEL);
      }
    } else if !done {
      SnapchatIndexAfterAppend(p.links, ProfileLink(SNAPCHAT_LABEL, SNAPCHAT_URL));
    }
  }

  // ---------------------------------------------------------------------
  // The email and bio migrations
  // ---------------------------------------------------------------------

  /** The email migration, given whether its flag is done. */
  function EmailStep(p: ProfileData, done: bool): StepResult {
    if done then StepResult(p, false)
    else if p.email == None then StepResult(p.(email := DEFAULT_PROFILE.email), true)
    else StepResult(p, true)
  }

  /** `migrateProfileWithEmail` */
  method MigrateProfileWithEmail(storage: LocalStorage, profile: ProfileData) returns (r: ProfileData)
    modifies storage
    ensures var s := EmailStep(profile, IsDone(old(storage.GetItem(EMAIL_MIGRATION_KEY))));
            r == s.profile && storage.items == Mark(old(storage.items), EMAIL_MIGRATION_KEY, s.marksDone)
  {
    var migrationDone := storage.GetItem(EMAIL_MIGRATION_KEY);
    if migrationDone == Some(DONE) {
      return profile;
    }
    if profile.email == None {
      var migratedProfile := profile.(email := DEFAULT_PROFILE.email);
      storage.SetItem(EMAIL_MIGRATION_KEY, DONE);
      return migratedProfile;
    }
    storage.SetItem(EMAIL_MIGRATION_KEY, DONE);
    return profile;
  }

  /** A done flag leaves the profile alone and writes nothing. Otherwise an
      absent email becomes the default address, a present one (the empty
      string included) is kept, no other field changes, and the flag is
      written in every case. */
  lemma EmailStepSpec(p: ProfileData, done: bool)
    ensures done ==> EmailStep(p, done) == StepResult(p, false)
    ensures !done ==> EmailStep(p, done).marksDone
    ensures !done && p.email == None ==> EmailStep(p, done).profile == p.(email := Some("ae560919@gmail.com"))
    ensures !done && p.email != None ==> EmailStep(p, done).profile == p
  {
  }

  /** The bio migration, given whether its flag is done. */
  function BioStep(p: ProfileData, done: bool): StepResult {
    if done then StepResult(p, false)
    else if p.bio == OLD_DEFAULT_BIO then StepResult(p.(bio := DEFAULT_PROFILE.bio), true)
    else StepResult(p, true)
  }

  /** `migrateBioIfDefault` */
  method MigrateBioIfDefault(storage: LocalStorage, profile: ProfileData) returns (r: ProfileData)
    modifies storage
    ensures var s := BioStep(profile, IsDone(old(storage.GetItem(BIO_MIGRATION_KEY))));
            r == s.profile && storage.items == Mark(old(storage.items), BIO_MIGRATION_KEY, s.marksDone)
  {
    var migrationDone := storage.GetItem(BIO_MIGRATION_KEY);
    if migrationDone == Some(DONE) {
      return profile;
    }
    if profile.bio == OLD_DEFAULT_BIO {
      var migratedProfile := profile.(bio := DEFAULT_PROFILE.bio);
      storage.SetItem(BIO_MIGRATION_KEY, DONE);
      return migratedProfile;
    }
    storage.SetItem(BIO_MIGRATION_KEY, DONE);
    return profile;
  }

  /** The bio is replaced by the current default exactly when the flag is not
      done and the bio equals the old default; nothing else changes, and the
      flag is written whenever it was not done. */
  lemma BioStepSpec(p: ProfileData, done: bool)
    ensures BioStep(p, done).marksDone <==> !done
    ensures BioStep(p, done).profile ==
            if !done && p.bio == OLD_DEFAULT_BIO
            then p.(bio := "Creative professional & digital enthusiast. Let's connect!")
            else p
  {
  }

  // ---------------------------------------------------------------------
  // The social-link clean-up
  // ---------------------------------------------------------------------

  /** The predicate of `cleanupSocialLinks`: false for Twitter/X and
      Instagram links, judged on the lower-cased label and URL. */
  predicate KeepsLink(link: ProfileLink) {
    var lowerLabel := ToLower(link.linkLabel);
    var lowerUrl := ToLower(link.url);
    if Includes(lowerLabel, "twitter") || Includes(lowerUrl, "twitter.com") || Includes(lowerUrl, "x.com") then false
    else if Includes(lowerLabel, "instagram") || Includes(lowerUrl, "instagram.com") then false
    else true
  }

  /** `xs` is `ys` with some entries deleted and the rest in their order. */
  predicate IsSublist<T(==)>(xs: seq<T>, ys: seq<T>)
    decreases |ys|
  {
    xs == [] || (ys != [] && ((xs[0] == ys[0] && IsSublist(xs[1..], ys[1..])) || IsSublist(xs, ys[1..])))
  }

  /** `Array.prototype.filter`: exactly the entries that `keep` accepts, each
      as often as it occurs in the input. */
  function Filter<T(!new)>(keep: T -> bool, xs: seq<T>): (r: seq<T>)
    ensures |r| <= |xs|
    ensures forall x :: x in r <==> x in xs && keep(x)
    ensures forall x :: multiset(r)[x] == if keep(x) then multiset(xs)[x] else 0
  {
    if xs == [] then []
    else
      assert xs == [xs[0]] + xs[1..];
      (if keep(xs[0]) then [xs[0]] else []) + Filter(keep, xs[1..])
  }

  /** What `filter` keeps stays in its original order. */
  lemma {:induction false} FilterIsSublist<T(!new)>(keep: T -> bool, xs: seq<T>)
    ensures IsSublist(Filter(keep, xs), xs)
  {
    if xs != [] {
      FilterIsSublist(keep, xs[1..]);
      var rest := Filter(keep, xs[1..]);
      if keep(xs[0]) {
        assert ([xs[0]] + rest)[1..] == rest;
      } else {
        assert Filter(keep, xs) == rest;
      }
    }
  }

  /** Filtering twice with the same predicate is filtering once. */
  lemma {:induction false} FilterIdempotent<T(!new)>(keep: T -> bool, xs: seq<T>)
    ensures Filter(keep, Filter(keep, xs)) == Filter(keep, xs)
  {
    if xs != [] {
      FilterIdempotent(keep, xs[1..]);
      var rest := Filter(keep, xs[1..]);
      if keep(xs[0]) {
        var r := [xs[0]] + rest;
        assert r[1..] == rest;
        assert Filter(keep, r) == [xs[0]] + Filter(keep, rest);
      } else {
        assert Filter(keep, xs) == rest;
      }
    }
  }

  /** `cleanupSocialLinks` */
  function CleanupSocialLinks(p: ProfileData): ProfileData {
    p.(links := Filter(KeepsLink, p.links))
  }

  /** The clean-up keeps every non-link field, keeps the links in order, and
      keeps a link, with all its copies, exactly when its lower-cased label
      contains neither "twitter" nor "instagram" and its lower-cased URL
      contains none of "twitter.com", "x.com" and "instagram.com"; every
      other link goes, with all its copies. */
  lemma CleanupSocialLinksSpec(p: ProfileData)
    ensures var r := CleanupSocialLinks(p);
            && r == p.(links := r.links)
            && IsSublist(r.links, p.links)
            && (forall l :: l in r.links <==>
                 && l in p.links
                 && !Includes(ToLower(l.linkLabel), "twitter") && !Includes(ToLower(l.linkLabel), "instagram")
                 && !Includes(ToLower(l.url), "twitter.com") && !Includes(ToLower(l.url), "x.com")
                 && !Includes(ToLower(l.url), "instagram.com"))
            && forall l :: multiset(r.links)[l] ==
                 if && !Includes(ToLower(l.linkLabel), "twitter") && !Includes(ToLower(l.linkLabel), "instagram")
                    && !Includes(ToLower(l.url), "twitter.com") && !Includes(ToLower(l.url), "x.com")
                    && !Includes(ToLower(l.url), "instagram.com")
                 then multiset(p.links)[l]
                 else 0
  {
    FilterIsSublist(KeepsLink, p.links);
  }

  /** The clean-up is idempotent. */
  lemma CleanupSocialLinksIdempotent(p: ProfileData)
    ensures CleanupSocialLinks(CleanupSocialLinks(p)) == CleanupSocialLinks(p)
  {
    FilterIdempotent(KeepsLink, p.links);
  }

  lemma {:induction false} FilterKeepsSnapchatIndex(keep: ProfileLink -> bool, links: seq<ProfileLink>)
    requires SnapchatIndex(links) != -1
    requires keep(links[SnapchatIndex(links)])
    ensures var r := Filter(keep, links);
            SnapchatIndex(r) != -1 && r[SnapchatIndex(r)] == links[SnapchatIndex(links)]
  {
    var rest := Filter(keep, links[1..]);
    if links[0].url != SNAPCHAT_URL {
      var i := SnapchatIndex(links[1..]);
      assert links[1..][i] == links[i + 1];
      FilterKeepsSnapchatIndex(keep, links[1..]);
      if keep(links[0]) {
        var r := [links[0]] + rest;
        assert Filter(keep, links) == r;
        assert r[1..] == rest;
        assert SnapchatIndex(r) == SnapchatIndex(rest) + 1;
      } else {
        assert Filter(keep, links) == rest;
      }
    } else {
      assert Filter(keep, links) == [links[0]] + rest;
    }
  }

  lemma FilterNoSnapchat(keep: ProfileLink -> bool, links: seq<ProfileLink>)
    requires SnapchatIndex(links) == -1
    ensures SnapchatIndex(Filter(keep, links)) == -1
  {
    var r := Filter(keep, links);
    forall k | 0 <= k < |r| ensures r[k].url != SNAPCHAT_URL {
      assert r[k] in links;
    }
  }

  // ---------------------------------------------------------------------
  // Load
  // ---------------------------------------------------------------------

  /** A profile together with the storage contents. */
  datatype StoreState = StoreState(profile: ProfileData, items: map<string, string>)

  /** The migration chain of the loader, in its fixed order: Snapchat, email,
      bio, then the clean-up, which no flag gates. */
  function RunMigrations(p: ProfileData, items: map<string, string>): StoreState {
    var s1 := SnapchatStep(p, IsDone(Lookup(items, MIGRATION_KEY)));
    var items1 := Mark(items, MIGRATION_KEY, s1.marksDone);
    var s2 := EmailStep(s1.profile, IsDone(Lookup(items1, EMAIL_MIGRATION_KEY)));
    var items2 := Mark(items1, EMAIL_MIGRATION_KEY, s2.marksDone);
    var s3 := BioStep(s2.profile, IsDone(Lookup(items2, BIO_MIGRATION_KEY)));
    var items3 := Mark(items2, BIO_MIGRATION_KEY, s3.marksDone);
    StoreState(CleanupSocialLinks(s3.profile), items3)
  }

  /** The state initialiser of the hook: a missing or empty stored string, or
      one that does not parse, gives the default profile and leaves storage
      alone; otherwise the parsed profile is migrated and written back. */
  function LoadState(items: map<string, string>, parse: Parser, stringify: Serializer): StoreState {
    var stored := Lookup(items, STORAGE_KEY);
    if stored == None || stored == Some("") then StoreState(DEFAULT_PROFILE, items)
    else
      match parse(stored.value)
      case None => StoreState(DEFAULT_PROFILE, items)
      case Some(p) =>
        var m := RunMigrations(p, items);
        StoreState(m.profile, m.items[STORAGE_KEY := stringify(m.profile)])
  }

  /** The state initialiser of `useProfileLocalStorage`. */
  method LoadProfile(storage: LocalStorage, parse: Parser, stringify: Serializer) returns (profile: ProfileData)
    modifies storage
    ensures StoreState(profile, storage.items) == LoadState(old(storage.items), parse, stringify)
  {
    var stored := storage.GetItem(STORAGE_KEY);
    if stored != None && stored != Some("") {
      var parsed := parse(stored.value);
      if parsed == None {
        return DEFAULT_PROFILE;
      }
      var loadedProfile := parsed.value;
      loadedProfile := MigrateProfileWithSnapchat(storage, loadedProfile);
      loadedProfile := MigrateProfileWithEmail(storage, loadedProfile);
      loadedProfile := MigrateBioIfDefault(storage, loadedProfile);
      loadedProfile := CleanupSocialLinks(loadedProfile);
      storage.SetItem(STORAGE_KEY, stringify(loadedProfile));
      return loadedProfile;
    }
    return DEFAULT_PROFILE;
  }

  lemma StorageKeysDistinct()
    ensures STORAGE_KEY != MIGRATION_KEY && STORAGE_KEY != EMAIL_MIGRATION_KEY && STORAGE_KEY != BIO_MIGRATION_KEY
    ensures MIGRATION_KEY != EMAIL_MIGRATION_KEY && MIGRATION_KEY != BIO_MIGRATION_KEY
    ensures EMAIL_MIGRATION_KEY != BIO_MIGRATION_KEY
  {
    assert STORAGE_KEY[9] != MIGRATION_KEY[9];
    assert STORAGE_KEY[9] != EMAIL_MIGRATION_KEY[9];
    assert STORAGE_KEY[9] != BIO_MIGRATION_KEY[9];
    assert MIGRATION_KEY[9] != EMAIL_MIGRATION_KEY[9];
    assert MIGRATION_KEY[9] != BIO_MIGRATION_KEY[9];
    assert EMAIL_MIGRATION_KEY[9] != BIO_MIGRATION_KEY[9];
  }

  /** Nothing usable in storage: the default profile, no migration, nothing
      written. */
  lemma LoadFallsBackToDefault(items: map<string, string>, parse: Parser, stringify: Serializer)
    requires STORAGE_KEY !in items || items[STORAGE_KEY] == "" || parse(items[STORAGE_KEY]) == None
    ensures LoadState(items, parse, stringify) == StoreState(DEFAULT_PROFILE, items)
  {
  }

  /** A stored profile is run through Snapchat, email, bio and clean-up in that
      order, each step reading its own flag as stored; afterwards the email
      and bio flags are done, the result is stored under `STORAGE_KEY`, and
      no other key changes. */
  lemma LoadMigratesInOrder(items: map<string, string>, parse: Parser, stringify: Serializer, p: ProfileData)
    requires STORAGE_KEY in items && items[STORAGE_KEY] != "" && parse(items[STORAGE_KEY]) == Some(p)
    ensures var r := LoadState(items, parse, stringify);
            && r.profile ==
               CleanupSocialLinks(
                 BioStep(
                   EmailStep(
                     SnapchatStep(p, IsDone(Lookup(items, MIGRATION_KEY))).profile,
                     IsDone(Lookup(items, EMAIL_MIGRATION_KEY))).profile,
                   IsDone(Lookup(items, BIO_MIGRATION_KEY))).profile)
            && Lookup(r.items, STORAGE_KEY) == Some(stringify(r.profile))
            && Lookup(r.items, EMAIL_MIGRATION_KEY) == Some(DONE)
            && Lookup(r.items, BIO_MIGRATION_KEY) == Some(DONE)
            && forall key :: key !in {STORAGE_KEY, MIGRATION_KEY, EMAIL_MIGRATION_KEY, BIO_MIGRATION_KEY} ==>
                 Lookup(r.items, key) == Lookup(items, key)
  {
    StorageKeysDistinct();
    var m := RunMigrations(p, items);
    RunMigrationsByFlags(p, items);
    assert LoadState(items, parse, stringify) == StoreState(m.profile, m.items[STORAGE_KEY := stringify(m.profile)]);
  }

  /** The three done flags, as the chain reads them. */
  datatype Flags = Flags(snapchat: bool, email: bool, bio: bool)

  function FlagsOf(items: map<string, string>): Flags {
    Flags(IsDone(Lookup(items, MIGRATION_KEY)), IsDone(Lookup(items, EMAIL_MIGRATION_KEY)),
          IsDone(Lookup(items, BIO_MIGRATION_KEY)))
  }

  /** The profile the chain computes from given flags. */
  function MigratedProfile(p: ProfileData, f: Flags): ProfileData {
    var s1 := SnapchatStep(p, f.snapchat);
    var s2 := EmailStep(s1.profile, f.email);
    var s3 := BioStep(s2.profile, f.bio);
    CleanupSocialLinks(s3.profile)
  }

  /** The chain depends on storage only through the three flags; afterwards
      the email and bio flags are done, the Snapchat flag is done when it was
      or when the Snapchat step wrote it, and no other key changes. */
  lemma RunMigrationsByFlags(p: ProfileData, items: map<string, string>)
    ensures RunMigrations(p, items).profile == MigratedProfile(p, FlagsOf(items))
    ensures var f := FlagsOf(items);
            FlagsOf(RunMigrations(p, items).items) ==
            Flags(f.snapchat || SnapchatStep(p, f.snapchat).marksDone, true, true)
    ensures forall key :: key !in {MIGRATION_KEY, EMAIL_MIGRATION_KEY, BIO_MIGRATION_KEY} ==>
              Lookup(RunMigrations(p, items).items, key) == Lookup(items, key)
  {
    StorageKeysDistinct();
  }

  /** After the Snapchat step and the clean-up, a second Snapchat step, with
      the flag as the first one left it, changes nothing: either the first
      link with the Snapchat URL already has the label "Snapchat", or there is
      no such link and the flag is done. */
  lemma SnapchatStableAfterCleanup(p: ProfileData, done: bool, q: ProfileData)
    requires q.links == Filter(KeepsLink, SnapchatStep(p, done).profile.links)
    ensures SnapchatStep(q, done || SnapchatStep(p, done).marksDone).profile == q
  {
    var s1 := SnapchatStep(p, done);
    var i := SnapchatIndex(p.links);
    if i != -1 || !done {
      if i != -1 {
        if p.links[i].linkLabel != SNAPCHAT_LABEL {
          SnapchatIndexAfterRelabel(p.links, i, SNAPCHAT_LABEL);
        }
      } else {
        SnapchatIndexAfterAppend(p.links, ProfileLink(SNAPCHAT_LABEL, SNAPCHAT_URL));
      }
      var j := SnapchatIndex(s1.profile.links);
      assert j != -1 && s1.profile.links[j] == ProfileLink(SNAPCHAT_LABEL, SNAPCHAT_URL);
      SnapchatLinkKept();
      FilterKeepsSnapchatIndex(KeepsLink, s1.profile.links);
    } else {
      FilterNoSnapchat(KeepsLink, p.links);
    }
  }

  /** The chain, run again on its own result with the flags it left, gives
      the same profile. */
  lemma MigratedProfileIdempotent(p: ProfileData, f: Flags)
    ensures var after := Flags(f.snapchat || SnapchatStep(p, f.snapchat).marksDone, true, true);
            MigratedProfile(MigratedProfile(p, f), after) == MigratedProfile(p, f)
  {
    var s1 := SnapchatStep(p, f.snapchat);
    var s3 := BioStep(EmailStep(s1.profile, f.email).profile, f.bio);
    var q := MigratedProfile(p, f);
    assert s3.profile.links == s1.profile.links;
    SnapchatStableAfterCleanup(p, f.snapchat, q);
    CleanupSocialLinksIdempotent(s3.profile);
  }

  /** Running the whole chain a second time, on its own output and with the
      flags as the first run left them, changes nothing in the profile, and
      no done flag is undone: at most the Snapchat flag becomes done. */
  lemma MigrationChainIdempotent(p: ProfileData, items: map<string, string>)
    ensures var m := RunMigrations(p, items);
            var m2 := RunMigrations(m.profile, m.items);
            && m2.profile == m.profile
            && (m2.items == m.items || m2.items == m.items[MIGRATION_KEY := DONE])
  {
    var m := RunMigrations(p, items);
    RunMigrationsByFlags(p, items);
    RunMigrationsByFlags(m.profile, m.items);
    MigratedProfileIdempotent(p, FlagsOf(items));
  }

  /** Reloading the page: once a load has stored its result, loading again
      gives the same profile, provided the stored text parses back to the
      record it was made from (as JSON does for this record type). */
  lemma ReloadIsStable(items: map<string, string>, parse: Parser, stringify: Serializer)
    requires forall q :: parse(stringify(q)) == Some(q) && stringify(q) != ""
    ensures var first := LoadState(items, parse, stringify);
            var saved := first.items[STORAGE_KEY := stringify(first.profile)];
            LoadState(saved, parse, stringify).profile == first.profile
  {
    var first := LoadState(items, parse, stringify);
    var saved := first.items[STORAGE_KEY := stringify(first.profile)];
    LoadOfSaved(saved, parse, stringify, first.profile);
    var stored := Lookup(items, STORAGE_KEY);
    if stored == None || stored == Some("") || parse(stored.value) == None {
      DefaultIsMigrationFixpoint(saved);
    } else {
      MigratedAgain(items, parse(stored.value).value, stringify(first.profile));
    }
  }

  /** Loading storage that holds the text of a record migrates that record. */
  lemma LoadOfSaved(saved: map<string, string>, parse: Parser, stringify: Serializer, q: ProfileData)
    requires forall q :: parse(stringify(q)) == Some(q) && stringify(q) != ""
    requires Lookup(saved, STORAGE_KEY) == Some(stringify(q))
    ensures LoadState(saved, parse, stringify).profile == MigratedProfile(q, FlagsOf(saved))
  {
    RunMigrationsByFlags(q, saved);
  }

  /** The chain, run on its own result with the storage it left (and any
      text under `STORAGE_KEY`), gives that result again. */
  lemma MigratedAgain(items: map<string, string>, p: ProfileData, text: string)
    ensures var m := RunMigrations(p, items);
            MigratedProfile(m.profile, FlagsOf(m.items[STORAGE_KEY := text])) == m.profile
  {
    StorageKeysDistinct();
    var m := RunMigrations(p, items);
    RunMigrationsByFlags(p, items);
    assert FlagsOf(m.items[STORAGE_KEY := text]) == FlagsOf(m.items);
    MigratedProfileIdempotent(p, FlagsOf(items));
  }

  // ---------------------------------------------------------------------
  // The default profile under the migrations
  // ---------------------------------------------------------------------

  /** The lower-cased Snapchat URL, in the pieces of `SNAPCHAT_URL`. */
  lemma LowerSnapchatUrl()
    ensures ToLower(SNAPCHAT_URL) ==
            "https://www.snapchat.com/add/" + "irfan_jujara1?share_" + "id=" + "c0ceq9" + "x" + "kcte&locale=en-us"
  {
    ToLowerOfPieces("https://www.snapchat.com/add/", "irfan_jujara1?share_", "id=", "C0cEQ9", "X", "kCtE&locale=en-US");
    LowerSnapchatUrlHead();
    LowerSnapchatUrlMiddle();
    LowerSnapchatUrlTail();
  }

  lemma ToLowerOfPieces(a: string, b: string, c: string, d: string, e: string, f: string)
    ensures ToLower(a + b + c + d + e + f) ==
            ToLower(a) + ToLower(b) + ToLower(c) + ToLower(d) + ToLower(e) + ToLower(f)
  {
    ToLowerAppend(a + b + c + d + e, f);
    ToLowerAppend(a + b + c + d, e);
    ToLowerAppend(a + b + c, d);
    ToLowerAppend(a + b, c);
    ToLowerAppend(a, b);
  }

  lemma LowerSnapchatUrlHead()
    ensures ToLower("https://www.snapchat.com/add/") == "https://www.snapchat.com/add/"
  {
  }

  lemma LowerSnapchatUrlMiddle()
    ensures ToLower("irfan_jujara1?share_") == "irfan_jujara1?share_"
    ensures ToLower("id=") == "id=" && ToLower("C0cEQ9") == "c0ceq9" && ToLower("X") == "x"
  {
  }

  lemma LowerSnapchatUrlTail()
    ensures ToLower("kCtE&locale=en-US") == "kcte&locale=en-us"
  {
  }

  /** "instagram.com" needs a 'g', which the lower-cased Snapchat URL (given
      as its six pieces) does not contain. */
  lemma NoInstagramInLowerUrl(a: string, b: string, c: string, d: string, e: string, f: string)
    requires a == "https://www.snapchat.com/add/" && b == "irfan_jujara1?share_" && c == "id="
    requires d == "c0ceq9" && e == "x" && f == "kcte&locale=en-us"
    ensures !Includes(a + b + c + d + e + f, "instagram.com")
  {
    var url := a + b + c + d + e + f;
    NoGInLowerUrl(a, b, c, d, e, f);
    if Includes(url, "instagram.com") {
      IncludesNeedsChar(url, "instagram.com", 5);
    }
  }

  lemma NoGInLowerUrl(a: string, b: string, c: string, d: string, e: string, f: string)
    requires a == "https://www.snapchat.com/add/" && b == "irfan_jujara1?share_" && c == "id="
    requires d == "c0ceq9" && e == "x" && f == "kcte&locale=en-us"
    ensures 'g' !in a + b + c + d + e + f
  {
    assert 'g' !in a && 'g' !in b;
    assert 'g' !in c && 'g' !in d && 'g' !in e && 'g' !in f;
  }

  /** The only 'x' of the lower-cased Snapchat URL is followed by 'k', so it
      does not contain "x.com". */
  lemma NoXDotComInLowerUrl(a: string, b: string, c: string, d: string, e: string, f: string)
    requires a == "https://www.snapchat.com/add/" && b == "irfan_jujara1?share_" && c == "id="
    requires d == "c0ceq9" && e == "x" && f == "kcte&locale=en-us"
    ensures !Includes(a + b + c + d + e + f, "x.com")
  {
    var head := a + b + c + d;
    assert 'x' !in head;
    assert a + b + c + d + e + f == head + (e + f);
    NoXDotComAfterX(e, f);
    if Includes(head + (e + f), "x.com") {
      IncludesSkip(head, e + f, "x.com");
    }
  }

  /** Each 'i' of the lower-cased Snapchat URL is followed by 'r' or 'd', so
      it does not contain "it", and so not "twitter.com". */
  lemma NoTwitterInLowerUrl(a: string, b: string, c: string, d: string, e: string, f: string)
    requires a == "https://www.snapchat.com/add/" && b == "irfan_jujara1?share_" && c == "id="
    requires d == "c0ceq9" && e == "x" && f == "kcte&locale=en-us"
    ensures !Includes(a + b + c + d + e + f, "twitter.com")
  {
    var url := a + b + c + d + e + f;
    NoItInLowerUrl(a, b, c, d, e, f);
    assert "twitter.com"[2..4] == "it";
    if Includes(url, "twitter.com") {
      IncludesInfix(url, "twitter.com", 2, 4);
    }
  }

  lemma NoItInLowerUrl(a: string, b: string, c: string, d: string, e: string, f: string)
    requires a == "https://www.snapchat.com/add/" && b == "irfan_jujara1?share_" && c == "id="
    requires d == "c0ceq9" && e == "x" && f == "kcte&locale=en-us"
    ensures !Includes(a + b + c + d + e + f, "it")
  {
    var rest := c + d + e + f;
    NoItInLowerUrlTail(c, d, e, f);
    assert b == "i" + "rfan_jujara1?share_";
    NoItAfterI("i", "rfan_jujara1?share_", rest);
    assert "i" + "rfan_jujara1?share_" + rest == b + rest;
    assert 'i' !in a;
    assert a + b + c + d + e + f == a + (b + rest);
    if Includes(a + (b + rest), "it") {
      IncludesSkip(a, b + rest, "it");
    }
  }

  lemma NoItInLowerUrlTail(c: string, d: string, e: string, f: string)
    requires c == "id=" && d == "c0ceq9" && e == "x" && f == "kcte&locale=en-us"
    ensures !Includes(c + d + e + f, "it")
  {
    var tail := d + e + f;
    assert 'i' !in tail;
    if Includes(tail, "it") {
      IncludesNeedsChar(tail, "it", 0);
    }
    NoItAfterI("i", "d=", tail);
    assert c + d + e + f == "i" + "d=" + tail;
  }

  /** `e + f` lacks "x.com" when `e` is "x", `f` does not start with '.' and
      `f` has no 'x'. */
  lemma NoXDotComAfterX(e: string, f: string)
    requires e == "x" && f != [] && f[0] != '.' && 'x' !in f
    ensures !Includes(e + f, "x.com")
  {
    var s := e + f;
    assert s[1..] == f;
    assert !StartsWith(s, "x.com") by {
      assert s[1..][0] == f[0];
      assert "x.com"[1..][0] == '.';
    }
    if Includes(f, "x.com") {
      IncludesNeedsChar(f, "x.com", 0);
    }
  }

  /** `i + w + rest` lacks "it" when `i` is "i", `w` does not start with 't'
      and has no 'i', and `rest` lacks "it". */
  lemma NoItAfterI(i: string, w: string, rest: string)
    requires i == "i" && w != [] && w[0] != 't' && 'i' !in w
    requires !Includes(rest, "it")
    ensures !Includes(i + w + rest, "it")
  {
    var s := i + w + rest;
    assert s[1..] == w + rest;
    assert !StartsWith(s, "it") by {
      assert s[1..][0] == w[0];
      assert "it"[1..][0] == 't';
    }
    if Includes(w + rest, "it") {
      IncludesSkip(w, rest, "it");
    }
  }

  /** The Snapchat link survives the clean-up: neither its label nor its URL
      contains an excluded word. */
  lemma SnapchatLinkKept()
    ensures KeepsLink(ProfileLink(SNAPCHAT_LABEL, SNAPCHAT_URL))
  {
    var lowerLabel := ToLower(SNAPCHAT_LABEL);
    assert lowerLabel == "snapchat";
    if Includes(lowerLabel, "twitter") {
      IncludesNeedsChar(lowerLabel, "twitter", 1);
    }
    if Includes(lowerLabel, "instagram") {
      IncludesNeedsChar(lowerLabel, "instagram", 0);
    }
    LowerSnapchatUrl();
    var a, b, c, d, e, f :=
      "https://www.snapchat.com/add/", "irfan_jujara1?share_", "id=", "c0ceq9", "x", "kcte&locale=en-us";
    NoInstagramInLowerUrl(a, b, c, d, e, f);
    NoXDotComInLowerUrl(a, b, c, d, e, f);
    NoTwitterInLowerUrl(a, b, c, d, e, f);
  }

  /** `DEFAULT_PROFILE.links` is the one Snapchat link, so the Snapchat step
      never changes the default. */
  lemma DefaultLinksAreTheSnapchatLink(done: bool)
    ensures DEFAULT_PROFILE.links == [ProfileLink(SNAPCHAT_LABEL, SNAPCHAT_URL)]
    ensures SnapchatStep(DEFAULT_PROFILE, done).profile == DEFAULT_PROFILE
  {
  }

  /** The default profile survives the clean-up. */
  lemma DefaultSurvivesCleanup()
    ensures CleanupSocialLinks(DEFAULT_PROFILE) == DEFAULT_PROFILE
  {
    SnapchatLinkKept();
    assert DEFAULT_PROFILE.links[1..] == [];
  }

  /** The default bio is not the old default, so the bio step keeps it. */
  lemma DefaultBioIsNotOld(done: bool)
    ensures DEFAULT_PROFILE.bio != OLD_DEFAULT_BIO
    ensures BioStep(DEFAULT_PROFILE, done).profile == DEFAULT_PROFILE
  {
    assert |DEFAULT_PROFILE.bio| != |OLD_DEFAULT_BIO|;
  }

  /** Whatever the flags, the migration chain leaves the default profile as it is. */
  lemma DefaultIsMigrationFixpoint(items: map<string, string>)
    ensures RunMigrations(DEFAULT_PROFILE, items).profile == DEFAULT_PROFILE
  {
    DefaultBioIsNotOld(true);
    DefaultBioIsNotOld(false);
    DefaultSurvivesCleanup();
  }

  /** A record stored by an old version, with the old default bio, no email,
      no links and no flags set, loads as that record with the current
      default bio, the default email and the Snapchat link, and every flag
      done. */
  lemma LoadLegacyRecord(parse: Parser, stringify: Serializer, text: string)
    requires text != ""
    requires parse(text) == Some(ProfileData("X", OLD_DEFAULT_BIO, "", None, []))
    ensures var r := LoadState(map[STORAGE_KEY := text], parse, stringify);
            && r.profile == ProfileData("X", DEFAULT_PROFILE.bio, "", DEFAULT_PROFILE.email,
                                        [ProfileLink(SNAPCHAT_LABEL, SNAPCHAT_URL)])
            && Lookup(r.items, MIGRATION_KEY) == Some(DONE)
            && Lookup(r.items, EMAIL_MIGRATION_KEY) == Some(DONE)
            && Lookup(r.items, BIO_MIGRATION_KEY) == Some(DONE)
  {
    StorageKeysDistinct();
    SnapchatLinkKept();
    var links := [ProfileLink(SNAPCHAT_LABEL, SNAPCHAT_URL)];
    assert links[1..] == [];
    assert Filter(KeepsLink, links) == links;
  }

  // ---------------------------------------------------------------------
  // Mutations
  // ---------------------------------------------------------------------

  /** The update of `addLink`: the list with the new link at its end. */
  function AddedLink(links: seq<ProfileLink>, newLabel: string, url: string): (r: seq<ProfileLink>)
    ensures |r| == |links| + 1 && r[..|links|] == links && r[|links|] == ProfileLink(newLabel, url)
  {
    links + [ProfileLink(newLabel, url)]
  }

  /** The update of `removeLink`: exactly entry `index` goes when it exists;
      otherwise nothing changes. */
  function WithoutLink(links: seq<ProfileLink>, index: int): (r: seq<ProfileLink>)
    ensures r == if 0 <= index < |links| then links[..index] + links[index + 1..] else links
  {
    if links == [] then []
    else
      assert links == [links[0]] + links[1..];
      (if index == 0 then [] else [links[0]]) + WithoutLink(links[1..], index - 1)
  }

  /** The update of `updateLink`: only entry `index` is replaced when it
      exists; otherwise nothing changes. */
  function WithLinkReplaced(links: seq<ProfileLink>, index: int, newLabel: string, url: string): (r: seq<ProfileLink>)
    ensures r == if 0 <= index < |links| then links[index := ProfileLink(newLabel, url)] else links
  {
    seq(|links|, i requires 0 <= i < |links| => if i == index then ProfileLink(newLabel, url) else links[i])
  }

  /** Removing the link just added restores the list. */
  lemma RemoveUndoesAdd(links: seq<ProfileLink>, newLabel: string, url: string)
    ensures WithoutLink(AddedLink(links, newLabel, url), |links|) == links
  {
  }

  /** `Partial<ProfileData>`: `None` where a field is not supplied. */
  datatype ProfilePatch = ProfilePatch(
    displayName: Option<string>,
    bio: Option<string>,
    phone: Option<string>,
    email: Option<string>,
    links: Option<seq<ProfileLink>>)

  function Pick<T>(supplied: Option<T>, current: T): T {
    if supplied.Some? then supplied.value else current
  }

  /** The update of `updateProfile`: the previous profile with the supplied
      fields laid over it. */
  function MergedProfile(prev: ProfileData, updates: ProfilePatch): ProfileData {
    ProfileData(
      Pick(updates.displayName, prev.displayName),
      Pick(updates.bio, prev.bio),
      Pick(updates.phone, prev.phone),
      if updates.email.Some? then updates.email else prev.email,
      Pick(updates.links, prev.links))
  }

  /** Two patches laid over each other, the second one winning. */
  function MergedPatch(a: ProfilePatch, b: ProfilePatch): ProfilePatch {
    ProfilePatch(
      if b.displayName.Some? then b.displayName else a.displayName,
      if b.bio.Some? then b.bio else a.bio,
      if b.phone.Some? then b.phone else a.phone,
      if b.email.Some? then b.email else a.email,
      if b.links.Some? then b.links else a.links)
  }

  /** A supplied field takes the supplied value; every other field keeps its
      value. */
  lemma MergedProfileOverridesOnlySupplied(prev: ProfileData, updates: ProfilePatch)
    ensures var r := MergedProfile(prev, updates);
            && (updates.displayName == None ==> r.displayName == prev.displayName)
            && (updates.displayName != None ==> r.displayName == updates.displayName.value)
            && (updates.bio == None ==> r.bio == prev.bio)
            && (updates.bio != None ==> r.bio == updates.bio.value)
            && (updates.phone == None ==> r.phone == prev.phone)
            && (updates.phone != None ==> r.phone == updates.phone.value)
            && (updates.email == None ==> r.email == prev.email)
            && (updates.email != None ==> r.email == updates.email)
            && (updates.links == None ==> r.links == prev.links)
            && (updates.links != None ==> r.links == updates.links.value)
  {
  }

  /** Two successive `updateProfile` calls amount to one with the merged patch,
      and an empty patch changes nothing. */
  lemma MergedProfileComposes(prev: ProfileData, a: ProfilePatch, b: ProfilePatch)
    ensures MergedProfile(MergedProfile(prev, a), b) == MergedProfile(prev, MergedPatch(a, b))
    ensures MergedProfile(prev, ProfilePatch(None, None, None, None, None)) == prev
  {
  }

  // ---------------------------------------------------------------------
  // The hook
  // ---------------------------------------------------------------------

  /** `useProfileLocalStorage`: the in-memory profile over the storage. Every
      change is followed by the effect that stores the whole profile, and so
      is the first render. */
  class ProfileHook {
    const storage: LocalStorage
    const stringify: Serializer
    var profile: ProfileData

    /** Mounting: the state initialiser, then the effect's first run. */
    constructor (storage: LocalStorage, parse: Parser, stringify: Serializer)
      modifies storage
      ensures this.storage == storage && this.stringify == stringify
      ensures var first := LoadState(old(storage.items), parse, stringify);
              profile == first.profile && storage.items == first.items[STORAGE_KEY := stringify(first.profile)]
    {
      var loaded := LoadProfile(storage, parse, stringify);
      this.storage := storage;
      this.stringify := stringify;
      profile := loaded;
      new;
      Persist();
    }

    /** The effect that stores the serialised profile under `STORAGE_KEY`. */
    method Persist()
      modifies storage
      ensures storage.items == old(storage.items)[STORAGE_KEY := stringify(profile)]
    {
      storage.SetItem(STORAGE_KEY, stringify(profile));
    }

    /** `updateProfile` */
    method UpdateProfile(updates: ProfilePatch)
      modifies this, storage
      ensures profile == MergedProfile(old(profile), updates)
      ensures storage.items == old(storage.items)[STORAGE_KEY := stringify(profile)]
    {
      profile := MergedProfile(profile, updates);
      Persist();
    }

    /** `addLink` */
    method AddLink(newLabel: string, url: string)
      modifies this, storage
      ensures profile == old(profile).(links := AddedLink(old(profile).links, newLabel, url))
      ensures storage.items == old(storage.items)[STORAGE_KEY := stringify(profile)]
    {
      profile := profile.(links := AddedLink(profile.links, newLabel, url));
      Persist();
    }

    /** `removeLink` */
    method RemoveLink(index: int)
      modifies this, storage
      ensures profile == old(profile).(links := WithoutLink(old(profile).links, index))
      ensures storage.items == old(storage.items)[STORAGE_KEY := stringify(profile)]
    {
      profile := profile.(links := WithoutLink(profile.links, index));
      Persist();
    }

    /** `updateLink` */
    method UpdateLink(index: int, newLabel: string, url: string)
      modifies this, storage
      ensures profile == old(profile).(links := WithLinkReplaced(old(profile).links, index, newLabel, url))
      ensures storage.items == old(storage.items)[STORAGE_KEY := stringify(profile)]
    {
      profile := profile.(links := WithLinkReplaced(profile.links, index, newLabel, url));
      Persist();
    }
  }
}
