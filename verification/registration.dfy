/**
 * Photographer registration and login: field validation, the public slug
 * derived from the display name and made unique with a `-N` suffix, the trial
 * defaults of a new profile, and the expiry rule applied at login. Creating
 * and deleting the identity-provider user and checking the password at login
 * are foreign calls; their outcomes are inputs.
 */
module Registration {
  import opened Base
  import opened JsText
  import opened Photographers
  import AuthMiddleware

  // ----- slug -----

  predicate SlugChar(c: char) {
    ('a' <= c <= 'z') || ('0' <= c <= '9') || c == '-'
  }

  predicate IsSlugText(s: string) {
    forall i :: 0 <= i < |s| ==> SlugChar(s[i])
  }

  /** Slug characters and white space: what survives the first replace. */
  predicate Allowed(s: string) {
    forall i :: 0 <= i < |s| ==> SlugChar(s[i]) || IsSpace(s[i])
  }

  /** `.replace(/[^a-z0-9\s-]/g, '')`. */
  function StripDisallowed(s: string): (r: string)
    ensures Allowed(r)
    ensures IsSlugText(s) ==> r == s
  {
    if s == [] then []
    else if SlugChar(s[0]) || IsSpace(s[0]) then [s[0]] + StripDisallowed(s[1..])
    else StripDisallowed(s[1..])
  }

  /** Drops the leading characters that satisfy `p`: what is removed
      satisfies `p`, what is kept is a suffix that does not start with one. */
  function DropWhile(p: char -> bool, s: string): (r: string)
    ensures |r| <= |s| && r == s[|s| - |r|..]
    ensures forall k :: 0 <= k < |s| - |r| ==> p(s[k])
    ensures r != [] ==> !p(r[0])
  {
    if s != [] && p(s[0]) then
      var r := DropWhile(p, s[1..]);
      assert forall k :: 0 <= k < |s| - |r| ==> p(s[k]) by {
        forall k | 0 < k < |s| - |r|
          ensures p(s[k])
        {
          assert s[k] == s[1..][k - 1];
        }
      }
      r
    else s
  }

  /** Every maximal run of characters satisfying `p` becomes one `-`. */
  function CollapseRuns(p: char -> bool, s: string): string
    decreases |s|
  {
    if s == [] then []
    else if p(s[0]) then "-" + CollapseRuns(p, DropWhile(p, s[1..]))
    else [s[0]] + CollapseRuns(p, s[1..])
  }

  /** `.replace(/\s+/g, '-')`: every run of white space becomes one dash, so
      no white space is left, and text without white space is unchanged. */
  function CollapseSpaces(s: string): (r: string)
    ensures NoSpace(r)
    ensures NoSpace(s) ==> r == s
  {
    CollapseRunsAvoid(IsSpace, s);
    assert NoSpace(s) ==> CollapseRuns(IsSpace, s) == s by {
      if NoSpace(s) {
        CollapseRunsNone(IsSpace, s);
      }
    }
    CollapseRuns(IsSpace, s)
  }

  /** The base slug of a display name. ASCII letters are lower-cased. The final
      `.trim()` finds no whitespace left to remove. */
  function BaseSlug(displayName: string): (r: string)
    ensures IsSlugText(r)
  {
    var stripped := StripDisallowed(ToLowerAscii(displayName));
    CollapseRunsKeep(IsSpace, SlugChar, stripped);
    Trim(CollapseSpaces(stripped))
  }

  lemma {:induction false} SlugTextNoSpace(s: string)
    requires IsSlugText(s)
    ensures NoSpace(s)
  {
    forall i | 0 <= i < |s|
      ensures !IsSpace(s[i])
    {
      assert SlugChar(s[i]);
    }
  }

  lemma {:induction false} LowerSlugText(s: string)
    requires IsSlugText(s)
    ensures ToLowerAscii(s) == s
  {
  }

  /** A name already in slug form is its own slug, so normalising twice is
      normalising once. */
  lemma {:induction false} BaseSlugFixes(s: string)
    requires IsSlugText(s)
    ensures BaseSlug(s) == s
    ensures BaseSlug(BaseSlug(s)) == BaseSlug(s)
  {
    LowerSlugText(s);
    SlugTextNoSpace(s);
  }

  lemma {:induction false} BaseSlugIdempotent(displayName: string)
    ensures BaseSlug(BaseSlug(displayName)) == BaseSlug(displayName)
  {
    BaseSlugFixes(BaseSlug(displayName));
  }

  // The run-collapsing lemmas are stated for any class `p` of run characters.

  /** `-` is not a run character, so no run character survives collapsing. */
  lemma {:induction false} CollapseRunsAvoid(p: char -> bool, s: string)
    requires !p('-')
    ensures forall i :: 0 <= i < |CollapseRuns(p, s)| ==> !p(CollapseRuns(p, s)[i])
    decreases |s|
  {
    if s != [] {
      var rest := if p(s[0]) then DropWhile(p, s[1..]) else s[1..];
      CollapseRunsAvoid(p, rest);
    }
  }

  /** Text without run characters is left as it is. */
  lemma {:induction false} CollapseRunsNone(p: char -> bool, s: string)
    requires forall i :: 0 <= i < |s| ==> !p(s[i])
    ensures CollapseRuns(p, s) == s
  {
    if s != [] {
      CollapseRunsNone(p, s[1..]);
    }
  }

  /** A class `q` that holds for `-` and for every character outside the runs
      holds for every character of the result. */
  lemma {:induction false} CollapseRunsKeep(p: char -> bool, q: char -> bool, s: string)
    requires q('-')
    requires forall i :: 0 <= i < |s| ==> q(s[i]) || p(s[i])
    ensures forall i :: 0 <= i < |CollapseRuns(p, s)| ==> q(CollapseRuns(p, s)[i])
    decreases |s|
  {
    if s != [] {
      var rest := if p(s[0]) then DropWhile(p, s[1..]) else s[1..];
      assert rest == s[|s| - |rest|..];
      forall i | 0 <= i < |rest|
        ensures q(rest[i]) || p(rest[i])
      {
        assert rest[i] == s[|s| - |rest| + i];
      }
      CollapseRunsKeep(p, q, rest);
    }
  }

  /** A run in front of text that does not start with a run character is
      dropped entirely. */
  lemma {:induction false} DropRun(p: char -> bool, w: string, b: string)
    requires forall i :: 0 <= i < |w| ==> p(w[i])
    requires b != [] ==> !p(b[0])
    ensures DropWhile(p, w + b) == b
  {
    if w == [] {
      assert w + b == b;
    } else {
      assert (w + b)[1..] == w[1..] + b;
      DropRun(p, w[1..], b);
    }
  }

  /** Text that ends outside a run keeps everything after it when its leading
      run is dropped, and keeps its last character. */
  lemma {:induction false} DropWhileConcat(p: char -> bool, a: string, b: string)
    requires a != [] && !p(a[|a| - 1])
    ensures DropWhile(p, a + b) == DropWhile(p, a) + b
    ensures DropWhile(p, a) != [] && DropWhile(p, a)[|DropWhile(p, a)| - 1] == a[|a| - 1]
  {
    var r := DropWhile(p, a);
    assert r == a[|a| - |r|..];
    if p(a[0]) {
      assert (a + b)[1..] == a[1..] + b;
      DropWhileConcat(p, a[1..], b);
    }
  }

  /** Collapsing distributes over a cut after a character outside the runs. */
  lemma {:induction false} CollapseConcat(p: char -> bool, a: string, b: string)
    requires a != [] ==> !p(a[|a| - 1])
    ensures CollapseRuns(p, a + b) == CollapseRuns(p, a) + CollapseRuns(p, b)
    decreases |a|
  {
    if a == [] {
      assert a + b == b;
    } else {
      var ab := a + b;
      assert ab[1..] == a[1..] + b;
      if p(a[0]) {
        var rest := DropWhile(p, a[1..]);
        DropWhileConcat(p, a[1..], b);
        CollapseConcat(p, rest, b);
        ConcatAssoc("-", CollapseRuns(p, rest), CollapseRuns(p, b));
      } else {
        CollapseConcat(p, a[1..], b);
        ConcatAssoc([a[0]], CollapseRuns(p, a[1..]), CollapseRuns(p, b));
      }
    }
  }

  /** The second replace: a non-empty run of white space between two
      characters that are not white space becomes exactly one `-`, and the
      text on either side is collapsed on its own. */
  lemma {:induction false} CollapseSpaceRun(a: string, w: string, b: string)
    requires w != [] && forall i :: 0 <= i < |w| ==> IsSpace(w[i])
    requires a != [] ==> !IsSpace(a[|a| - 1])
    requires b != [] ==> !IsSpace(b[0])
    ensures CollapseSpaces(a + w + b) == CollapseSpaces(a) + "-" + CollapseSpaces(b)
  {
    var wb := w + b;
    assert wb[1..] == w[1..] + b;
    DropRun(IsSpace, w[1..], b);
    assert CollapseRuns(IsSpace, wb) == "-" + CollapseRuns(IsSpace, b);
    CollapseConcat(IsSpace, a, wb);
    ConcatAssoc(a, w, b);
    ConcatAssoc(CollapseRuns(IsSpace, a), "-", CollapseRuns(IsSpace, b));
  }

  lemma {:induction false} ConcatAssoc(x: string, y: string, z: string)
    ensures x + (y + z) == x + y + z
  {
  }

  /** The first replace works character by character: a character is kept
      exactly when it is a slug character or white space, and stripping a
      concatenation strips each part. */
  lemma {:induction false} StripDisallowedConcat(a: string, b: string)
    ensures StripDisallowed(a + b) == StripDisallowed(a) + StripDisallowed(b)
    ensures |a| == 1 ==> StripDisallowed(a) == (if SlugChar(a[0]) || IsSpace(a[0]) then a else [])
  {
    if a == [] {
      assert a + b == b;
    } else {
      assert (a + b)[1..] == a[1..] + b;
      StripDisallowedConcat(a[1..], b);
    }
  }

  /** Two words in slug form separated by white space give the words joined
      by a single `-`. */
  lemma {:induction false} BaseSlugOfWords(a: string, w: string, b: string)
    requires a != [] && b != [] && IsSlugText(a) && IsSlugText(b)
    requires w != [] && forall i :: 0 <= i < |w| ==> IsSpace(w[i])
    ensures BaseSlug(a + w + b) == a + "-" + b
  {
    var name := a + w + b;
    AllowedWords(a, w, b);
    LowerAllowed(name);
    StripAllowed(name);
    SlugTextNoSpace(a);
    SlugTextNoSpace(b);
    CollapseSpaceRun(a, w, b);
    DashJoinSlugText(a, b);
    SlugTextNoSpace(a + "-" + b);
  }

  lemma {:induction false} AllowedWords(a: string, w: string, b: string)
    requires IsSlugText(a) && IsSlugText(b)
    requires forall i :: 0 <= i < |w| ==> IsSpace(w[i])
    ensures Allowed(a + w + b)
  {
    var s := a + w + b;
    forall i | 0 <= i < |s|
      ensures SlugChar(s[i]) || IsSpace(s[i])
    {
      if i < |a| {
        assert s[i] == a[i];
      } else if i < |a| + |w| {
        assert s[i] == w[i - |a|];
      } else {
        assert s[i] == b[i - |a| - |w|];
      }
    }
  }

  lemma {:induction false} DashJoinSlugText(a: string, b: string)
    requires IsSlugText(a) && IsSlugText(b)
    ensures IsSlugText(a + "-" + b)
  {
    var r := a + "-" + b;
    forall i | 0 <= i < |r|
      ensures SlugChar(r[i])
    {
      if i > |a| {
        assert r[i] == b[i - |a| - 1];
      }
    }
  }

  lemma {:induction false} LowerAllowed(s: string)
    requires Allowed(s)
    ensures ToLowerAscii(s) == s
  {
    forall i | 0 <= i < |s|
      ensures LowerChar(s[i]) == s[i]
    {
      assert SlugChar(s[i]) || IsSpace(s[i]);
    }
  }

  lemma {:induction false} StripAllowed(s: string)
    requires Allowed(s)
    ensures StripDisallowed(s) == s
  {
    if s != [] {
      StripAllowed(s[1..]);
    }
  }

  /** The `counter`-th slug tried: the base, then `base-1`, `base-2`, ... */
  function Candidate(base: string, counter: nat): string {
    if counter == 0 then base else base + "-" + NatToString(counter)
  }

  lemma {:induction false} CandidateInjective(base: string, j: nat, k: nat)
    requires Candidate(base, j) == Candidate(base, k)
    ensures j == k
  {
    if j != 0 && k != 0 {
      var a := base + "-" + NatToString(j);
      var b := base + "-" + NatToString(k);
      assert a[|base| + 1..] == NatToString(j);
      assert b[|base| + 1..] == NatToString(k);
      NatToStringInjective(j, k);
    }
  }

  lemma {:induction false} CandidateSlugText(base: string, counter: nat)
    requires IsSlugText(base)
    ensures IsSlugText(Candidate(base, counter))
  {
    if counter > 0 {
      var digits := NatToString(counter);
      var c := base + "-" + digits;
      forall i | 0 <= i < |c|
        ensures SlugChar(c[i])
      {
        if i > |base| {
          assert c[i] == digits[i - |base| - 1];
        }
      }
    }
  }

  /** The photographers whose slug is `s`. */
  function HoldersOf(photographers: map<string, Photographer>, s: string): set<string>
  {
    set id | id in photographers && photographers[id].slug == s
  }

  /** The slugs the photographers table holds. */
  function SlugsOf(photographers: map<string, Photographer>): set<string>
  {
    set id | id in photographers :: photographers[id].slug
  }

  /** No two photographers share a slug. */
  predicate SlugsUnique(photographers: map<string, Photographer>) {
    forall a, b :: a in photographers && b in photographers && photographers[a].slug == photographers[b].slug ==> a == b
  }

  /** `.eq('slug', s).single()` answers with a row only when the query does not
      fail and exactly one photographer holds `s`; otherwise `existing` is null. */
  predicate LookupFinds(photographers: map<string, Photographer>, s: string, failed: bool) {
    !failed && |HoldersOf(photographers, s)| == 1
  }

  /** The lookup of the `k`-th candidate answers with a row; `failures` are
      the attempts whose query fails. */
  predicate FoundAt(photographers: map<string, Photographer>, base: string, failures: set<nat>, k: nat) {
    LookupFinds(photographers, Candidate(base, k), k in failures)
  }

  /** The loop accepts candidate `k`: every earlier lookup answered with a
      row, and this one did not. */
  predicate AcceptedAt(photographers: map<string, Photographer>, base: string, failures: set<nat>, k: nat) {
    (forall j :: 0 <= j < k ==> FoundAt(photographers, base, failures, j))
    && !FoundAt(photographers, base, failures, k)
  }

  /** The uniqueness loop: look up candidates in order until a lookup answers
      without a row. */
  method UniqueSlug(base: string, photographers: map<string, Photographer>, failures: set<nat>)
    returns (slug: string, counter: nat)
    ensures slug == Candidate(base, counter)
    ensures AcceptedAt(photographers, base, failures, counter)
  {
    slug := base;
    counter := 0;
    var slugExists := true;
    ghost var seen: set<string> := {};
    while slugExists
      invariant slug == Candidate(base, counter)
      invariant forall j :: 0 <= j < counter ==> FoundAt(photographers, base, failures, j)
      invariant seen <= photographers.Keys && |seen| == counter
      invariant forall id :: id in seen ==> exists j :: 0 <= j < counter && photographers[id].slug == Candidate(base, j)
      invariant !slugExists ==> !FoundAt(photographers, base, failures, counter)
      decreases |photographers.Keys| - |seen|, slugExists
    {
      var existing := LookupFinds(photographers, slug, counter in failures);
      if !existing {
        slugExists := false;
      } else {
        var holder :| holder in HoldersOf(photographers, slug);
        if holder in seen {
          var j :| 0 <= j < counter && photographers[holder].slug == Candidate(base, j);
          CandidateInjective(base, j, counter);
        }
        SubsetCard(seen + {holder}, photographers.Keys);
        seen := seen + {holder};
        counter := counter + 1;
        slug := base + "-" + NatToString(counter);
      }
    }
  }

  /** The slug registration gives a new photographer called `displayName`:
      the loop's accepted candidate for the display name's base slug. */
  method ChooseSlug(displayName: string, photographers: map<string, Photographer>, failures: set<nat>)
    returns (slug: string)
    ensures IsSlugText(slug)
    ensures exists k: nat :: AcceptedAt(photographers, BaseSlug(displayName), failures, k)
                            && slug == Candidate(BaseSlug(displayName), k)
    ensures BaseSlug(displayName) !in SlugsOf(photographers) ==> slug == BaseSlug(displayName)
    ensures failures == {} && SlugsUnique(photographers) ==> slug !in SlugsOf(photographers)
  {
    var base := BaseSlug(displayName);
    var counter;
    slug, counter := UniqueSlug(base, photographers, failures);
    AcceptedSlug(photographers, base, failures, counter);
  }

  /** What registration learns about the candidate the loop accepts: it is
      slug text, it is the base whenever the base is free, and it is free
      whenever no lookup fails and slugs are unique. */
  lemma {:induction false} AcceptedSlug(photographers: map<string, Photographer>, base: string, failures: set<nat>, k: nat)
    requires IsSlugText(base) && AcceptedAt(photographers, base, failures, k)
    ensures IsSlugText(Candidate(base, k))
    ensures base !in SlugsOf(photographers) ==> Candidate(base, k) == base
    ensures failures == {} && SlugsUnique(photographers) ==> Candidate(base, k) !in SlugsOf(photographers)
  {
    CandidateSlugText(base, k);
    if k > 0 {
      assert FoundAt(photographers, base, failures, 0);
      FoundIsHeld(photographers, base);
    }
    if failures == {} && SlugsUnique(photographers) {
      AcceptedFirstFree(photographers, base, k);
    }
  }

  /** The loop accepts one candidate only: the first whose lookup answers without a row. */
  lemma {:induction false} AcceptedUnique(photographers: map<string, Photographer>, base: string, failures: set<nat>, j: nat, k: nat)
    requires AcceptedAt(photographers, base, failures, j) && AcceptedAt(photographers, base, failures, k)
    ensures j == k
  {
  }

  lemma {:induction false} FoundIsHeld(photographers: map<string, Photographer>, s: string)
    requires |HoldersOf(photographers, s)| == 1
    ensures s in SlugsOf(photographers)
  {
    var id :| id in HoldersOf(photographers, s);
  }

  /** With slugs unique in the table, a lookup that does not fail answers with
      a row exactly when the slug is taken. */
  lemma {:induction false} LookupFindsTaken(photographers: map<string, Photographer>, s: string)
    requires SlugsUnique(photographers)
    ensures LookupFinds(photographers, s, false) <==> s in SlugsOf(photographers)
  {
    if s in SlugsOf(photographers) {
      var id :| id in photographers && photographers[id].slug == s;
      assert HoldersOf(photographers, s) == {id};
    } else {
      assert HoldersOf(photographers, s) == {};
    }
  }

  /** While no lookup fails and slugs are unique, the accepted candidate is the
      first free one: free itself, with every earlier one taken. */
  lemma {:induction false} AcceptedFirstFree(photographers: map<string, Photographer>, base: string, k: nat)
    requires SlugsUnique(photographers)
    ensures AcceptedAt(photographers, base, {}, k) <==>
      (forall j :: 0 <= j < k ==> Candidate(base, j) in SlugsOf(photographers))
      && Candidate(base, k) !in SlugsOf(photographers)
  {
    forall j | 0 <= j <= k
      ensures FoundAt(photographers, base, {}, j) <==> Candidate(base, j) in SlugsOf(photographers)
    {
      LookupFindsTaken(photographers, Candidate(base, j));
    }
  }

  /** A failed lookup reads as a free slug: the loop accepts a slug another
      photographer already holds. */
  lemma {:induction false} FailedLookupAcceptsTaken(p: Photographer)
    requires p.slug == "ana"
    ensures var photographers := map["u" := p];
      AcceptedAt(photographers, "ana", {0}, 0) && "ana" in SlugsOf(photographers)
  {
    var photographers := map["u" := p];
    assert photographers["u"].slug == "ana";
  }

  /** Two photographers holding one slug make `.single()` fail too: the slug
      is accepted a third time. */
  lemma {:induction false} SharedSlugAccepted(p: Photographer, q: Photographer)
    requires p.slug == "ana" && q.slug == "ana"
    ensures var photographers := map["u" := p, "v" := q];
      AcceptedAt(photographers, "ana", {}, 0) && "ana" in SlugsOf(photographers)
  {
    var photographers := map["u" := p, "v" := q];
    assert HoldersOf(photographers, "ana") == {"u", "v"};
    assert photographers["u"].slug == "ana";
  }

  lemma {:induction false} SubsetCard<T>(a: set<T>, b: set<T>)
    requires a <= b
    ensures |a| <= |b|
  {
    if a != {} {
      var x :| x in a;
      SubsetCard(a - {x}, b - {x});
    }
  }

  // ----- registration -----

  datatype RegisterRequest = RegisterRequest(
    email: string,
    password: string,
    businessName: string,
    displayName: string,
    phone: string)

  datatype RegisterResult =
    | MissingFields          // 400
    | PasswordTooShort       // 400
    | AuthUserError          // 400: the identity provider refused the user
    | ProfileError           // 500: the profile insert failed; the user is deleted again
    | Registered(photographer: Photographer)

  predicate MissingField(req: RegisterRequest) {
    req.email == "" || req.password == "" || req.businessName == "" || req.displayName == ""
  }

  /** The request passes both validations. */
  predicate Admissible(req: RegisterRequest) {
    !MissingField(req) && Utf16Length(req.password) >= 8
  }

  /** `password.length`: UTF-16 code units, two for a character beyond U+FFFF. */
  function Utf16Length(s: string): (n: nat)
    ensures |s| <= n <= 2 * |s|
  {
    if s == [] then 0 else (if s[0] as int > 0xFFFF then 2 else 1) + Utf16Length(s[1..])
  }

  /** The profile a registration inserts: plan `pro`, a fourteen-day trial. */
  function NewPhotographer(req: RegisterRequest, authUserId: string, slug: string, now: int): Photographer {
    Photographer(authUserId, ToLowerAscii(req.email), req.businessName, req.displayName, slug,
                 if req.phone == "" then None else Some(req.phone),
                 "pro", Trial, Some(now + TRIAL_MS), None, None)
  }

  /** A new profile starts on the `pro` plan in a trial ending 14 days from
      now, under the lower-cased address, and the access gate lets it in. */
  lemma {:induction false} NewPhotographerInTrial(req: RegisterRequest, authUserId: string, slug: string, now: int)
    ensures var p := NewPhotographer(req, authUserId, slug, now);
      && p.authUserId == authUserId && p.slug == slug
      && p.planType == "pro" && p.subscriptionStatus == Trial
      && p.trialEndsAt == Some(now + 14 * 24 * 60 * 60 * 1000)
      && p.email == ToLowerAscii(req.email)
      && AuthMiddleware.HasAccess(p, now)
  {
  }

  // ----- login -----

  datatype LoginResult =
    | ProfileNotFound                 // 404
    | SubscriptionExpired             // 403, after marking the profile expired
    | LoggedIn(photographer: Photographer)

  predicate TrialEnded(p: Photographer, now: int) {
    p.trialEndsAt.Some? && p.trialEndsAt.value < now
  }

  predicate SubscriptionLapsed(p: Photographer, now: int) {
    p.subscriptionExpiresAt.Some? && p.subscriptionExpiresAt.value < now
  }

  /** Login is refused only when the trial has ended and a subscription expiry
      exists and has passed; the subscription status is not consulted. */
  predicate LoginAllowed(p: Photographer, now: int) {
    !(TrialEnded(p, now) && SubscriptionLapsed(p, now))
  }

  /** Whoever the access gate lets in may also log in. */
  lemma {:induction false} AccessImpliesLogin(p: Photographer, now: int)
    requires AuthMiddleware.HasAccess(p, now)
    ensures LoginAllowed(p, now)
  {
  }

  /** The converse fails: an ended trial with no subscription expiry logs in,
      but the access gate refuses it. */
  lemma {:induction false} LoginLaxerThanGate(now: int)
    ensures var p := Photographer("u", "a@b.c", "b", "d", "d", None, "pro", Trial, Some(now - 1), None, None);
      LoginAllowed(p, now) && !AuthMiddleware.HasAccess(p, now)
  {
  }

  /** The photographer table and the identity provider's users, keyed by auth user id. */
  class Accounts {
    var users: set<string>
    var photographers: map<string, Photographer>

    function Slugs(): set<string>
      reads this
    {
      SlugsOf(photographers)
    }

    constructor (users: set<string>, photographers: map<string, Photographer>)
      ensures this.users == users && this.photographers == photographers
    {
      this.users := users;
      this.photographers := photographers;
    }

    /** `POST /auth/register`. `newUserId` is the id the identity provider
        gives the new user (None: it refused); `slugFailures` are the slug
        lookups whose query fails; `profileOk` is whether the profile insert
        succeeded. The slug loop only reads the photographers table, so the
        model records the new user in `CreateProfile`, after the loop,
        together with its removal when the insert fails. */
    method Register(req: RegisterRequest, newUserId: Option<string>, slugFailures: set<nat>, profileOk: bool, now: int)
      returns (res: RegisterResult)
      requires newUserId.Some? ==> newUserId.value !in users
      modifies this
      ensures res == MissingFields <==> MissingField(req)
      ensures res == PasswordTooShort <==> !MissingField(req) && Utf16Length(req.password) < 8
      ensures res == AuthUserError <==> Admissible(req) && newUserId.None?
      ensures res == ProfileError <==> Admissible(req) && newUserId.Some? && !profileOk
      ensures res.Registered? <==> Admissible(req) && newUserId.Some? && profileOk
      ensures !res.Registered? ==> users == old(users) && photographers == old(photographers)
      ensures res.Registered? ==>
        && users == old(users) + {newUserId.value}
        && photographers == old(photographers)[newUserId.value := res.photographer]
        && res.photographer == NewPhotographer(req, newUserId.value, res.photographer.slug, now)
        && AuthMiddleware.HasAccess(res.photographer, now)
        && IsSlugText(res.photographer.slug)
        && (exists k: nat :: AcceptedAt(old(photographers), BaseSlug(req.displayName), slugFailures, k)
                           && res.photographer.slug == Candidate(BaseSlug(req.displayName), k))
        && (BaseSlug(req.displayName) !in old(Slugs()) ==> res.photographer.slug == BaseSlug(req.displayName))
        && (slugFailures == {} && SlugsUnique(old(photographers)) ==> res.photographer.slug !in old(Slugs()))
    {
      if req.email == "" || req.password == "" || req.businessName == "" || req.displayName == "" {
        return MissingFields;
      }
      if Utf16Length(req.password) < 8 {
        return PasswordTooShort;
      }
      if newUserId.None? {
        return AuthUserError;
      }
      var slug := ChooseSlug(req.displayName, photographers, slugFailures);
      res := CreateProfile(req, newUserId.value, slug, profileOk, now);
    }

    /** The profile insert for user `userId` with the slug the loop chose;
        when the insert fails the user is deleted again. */
    method CreateProfile(req: RegisterRequest, userId: string, slug: string, profileOk: bool, now: int)
      returns (res: RegisterResult)
      requires userId !in users
      modifies this
      ensures res == ProfileError || res.Registered?
      ensures res.Registered? <==> profileOk
      ensures !res.Registered? ==> users == old(users) && photographers == old(photographers)
      ensures res.Registered? ==>
        && users == old(users) + {userId}
        && photographers == old(photographers)[userId := res.photographer]
        && res.photographer == NewPhotographer(req, userId, slug, now)
        && AuthMiddleware.HasAccess(res.photographer, now)
    {
      users := users + {userId};
      if !profileOk {
        users := users - {userId};
        return ProfileError;
      }
      var p := NewPhotographer(req, userId, slug, now);
      NewPhotographerInTrial(req, userId, slug, now);
      photographers := photographers[userId := p];
      res := Registered(p);
    }

    /** `POST /auth/login` after the credentials were accepted for `authUserId`. */
    method Login(authUserId: string, now: int) returns (res: LoginResult)
      modifies this
      ensures users == old(users)
      ensures authUserId !in old(photographers) <==> res == ProfileNotFound
      ensures res == ProfileNotFound ==> photographers == old(photographers)
      ensures authUserId in old(photographers) ==>
        (res == SubscriptionExpired <==> !LoginAllowed(old(photographers)[authUserId], now))
      ensures res == SubscriptionExpired ==>
        photographers == old(photographers)[authUserId := old(photographers)[authUserId].(subscriptionStatus := Expired)]
      ensures res.LoggedIn? ==>
        res.photographer == old(photographers)[authUserId]
        && photographers == old(photographers)[authUserId := res.photographer.(lastLoginAt := Some(now))]
    {
      if authUserId !in photographers {
        return ProfileNotFound;
      }
      var photographer := photographers[authUserId];
      var trialEnded := photographer.trialEndsAt.Some? && photographer.trialEndsAt.value < now;
      var subscriptionExpired := photographer.subscriptionExpiresAt.Some? && photographer.subscriptionExpiresAt.value < now;
      if trialEnded && subscriptionExpired {
        photographers := photographers[authUserId := photographer.(subscriptionStatus := Expired)];
        return SubscriptionExpired;
      }
      photographers := photographers[authUserId := photographer.(lastLoginAt := Some(now))];
      res := LoggedIn(photographer);
    }
  }
}
