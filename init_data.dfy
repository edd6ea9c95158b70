/** Start-up seeding: the five default content templates and the default
    admin account, each added only when missing. */
module InitData {
  import opened Common
  import opened Models
  import opened Store
  import opened Prompt
  import opened Auth

  // ---------------------------------------------------------------------
  // initialize_content_templates

  /** One entry of the seed list.  The prompt is kept as the text before and
      after its single `{topic}` placeholder. */
  datatype Seed = Seed(
    name: string, contentType: string, before: string, after: string,
    defaultWordCount: int, basePrice: real)

  function SeedPrompt(s: Seed): string {
    s.before + "{topic}" + s.after
  }

  const Seeds: seq<Seed> := [
    Seed("Blog Post", "blog_post", "Write a comprehensive blog post about ",
         ". Include an engaging introduction, well-structured body paragraphs with subheadings, and a compelling conclusion. Make it informative and engaging for the target audience.",
         800, 25.0),
    Seed("Article", "article", "Create a detailed article about ",
         ". Ensure it is well-researched, factual, and provides valuable insights. Include proper structure with introduction, main content sections, and conclusion.",
         1000, 35.0),
    Seed("Social Media Post", "social_media", "Create engaging social media content about ",
         ". Make it catchy, shareable, and appropriate for the specified platform. Include relevant hashtags and call-to-action.",
         150, 10.0),
    Seed("Marketing Copy", "marketing_copy", "Write persuasive marketing copy for ",
         ". Focus on benefits, create urgency, and include a strong call-to-action. Make it compelling and conversion-focused.",
         300, 20.0),
    Seed("Video Script", "video_script", "Create a video script for ",
         ". Include scene descriptions, dialogue, and timing notes. Make it engaging and suitable for the specified video length and style.",
         500, 30.0)
  ]

  /** `ContentTemplate.query.filter_by(content_type=...).first()` finds a
      row: any template of that type, active or not. */
  predicate HasTemplateOfType(templates: seq<ContentTemplate>, contentType: string) {
    exists t :: t in templates && t.contentType == contentType
  }

  /** `ContentTemplate(**template_data)`: active by default. */
  function SeedTemplate(id: nat, s: Seed, now: Clock): ContentTemplate {
    NewTemplate(id, s.name, s.contentType, SeedPrompt(s), Some(s.defaultWordCount), s.basePrice, None, now)
  }

  /** One turn of the seeding loop. */
  function SeedOne(st: Db, s: Seed, now: Clock): Db {
    if HasTemplateOfType(st.templates, s.contentType) then st
    else st.(templates := st.templates + [SeedTemplate(st.nextTemplateId, s, now)],
             nextTemplateId := st.nextTemplateId + 1)
  }

  /** The loop over `seeds`, in list order. */
  function SeedAll(st: Db, seeds: seq<Seed>, now: Clock): Db
    decreases |seeds|
  {
    if |seeds| == 0 then st
    else SeedOne(SeedAll(st, seeds[..|seeds| - 1], now), seeds[|seeds| - 1], now)
  }

  /** A seed is added exactly when no template of its type exists, active
      or not, as an active template carrying the seed's columns; the store
      is otherwise untouched. */
  lemma SeedOneAddsOnlyMissing(st: Db, s: Seed, now: Clock)
    ensures var st' := SeedOne(st, s, now);
      && (HasTemplateOfType(st.templates, s.contentType) ==> st' == st)
      && (!HasTemplateOfType(st.templates, s.contentType) ==>
            && |st'.templates| == |st.templates| + 1 && st'.templates[..|st.templates|] == st.templates
            && var t := st'.templates[|st.templates|];
            && t.id == st.nextTemplateId && t.isActive && t.name == s.name
            && t.contentType == s.contentType && t.templatePrompt == SeedPrompt(s)
            && t.defaultWordCount == s.defaultWordCount && t.basePrice == s.basePrice
            && st' == st.(templates := st'.templates, nextTemplateId := st.nextTemplateId + 1))
  {
  }

  /** Seeding only appends templates: every existing one stays, unchanged
      and in place, and no other table changes. */
  lemma {:induction false} SeedAllKeepsExisting(st: Db, seeds: seq<Seed>, now: Clock)
    ensures var st' := SeedAll(st, seeds, now);
      && |st.templates| <= |st'.templates| && st'.templates[..|st.templates|] == st.templates
      && st' == st.(templates := st'.templates, nextTemplateId := st'.nextTemplateId)
    decreases |seeds|
  {
    if |seeds| > 0 {
      var mid := SeedAll(st, seeds[..|seeds| - 1], now);
      SeedAllKeepsExisting(st, seeds[..|seeds| - 1], now);
      var st' := SeedOne(mid, seeds[|seeds| - 1], now);
      assert st'.templates[..|mid.templates|] == mid.templates;
      assert st'.templates[..|st.templates|] == mid.templates[..|st.templates|];
    }
  }

  /** After seeding, every seeded type has a template. */
  lemma {:induction false} SeedAllCovers(st: Db, seeds: seq<Seed>, now: Clock)
    ensures forall s :: s in seeds ==> HasTemplateOfType(SeedAll(st, seeds, now).templates, s.contentType)
    decreases |seeds|
  {
    if |seeds| > 0 {
      var init := seeds[..|seeds| - 1];
      var last := seeds[|seeds| - 1];
      var mid := SeedAll(st, init, now);
      var st' := SeedOne(mid, last, now);
      SeedAllCovers(st, init, now);
      assert st'.templates[..|mid.templates|] == mid.templates;
      forall s | s in seeds ensures HasTemplateOfType(st'.templates, s.contentType) {
        if s in init {
          var t :| t in mid.templates && t.contentType == s.contentType;
          assert t in st'.templates by {
            var m :| 0 <= m < |mid.templates| && mid.templates[m] == t;
            assert st'.templates[m] == t;
          }
        } else {
          assert s == last by {
            assert seeds == init + [last];
          }
          if !HasTemplateOfType(mid.templates, s.contentType) {
            assert st'.templates[|mid.templates|] in st'.templates;
          }
        }
      }
    }
  }

  /** When every seeded type already has a template, seeding changes
      nothing. */
  lemma {:induction false} SeedAllWhenCovered(st: Db, seeds: seq<Seed>, now: Clock)
    requires forall s :: s in seeds ==> HasTemplateOfType(st.templates, s.contentType)
    ensures SeedAll(st, seeds, now) == st
    decreases |seeds|
  {
    if |seeds| > 0 {
      var init := seeds[..|seeds| - 1];
      assert forall s :: s in init ==> s in seeds;
      SeedAllWhenCovered(st, init, now);
      assert seeds[|seeds| - 1] in seeds;
    }
  }

  /** Seeding twice gives what seeding once gives. */
  lemma SeedingIdempotent(st: Db, now: Clock, later: Clock)
    ensures SeedAll(SeedAll(st, Seeds, now), Seeds, later) == SeedAll(st, Seeds, now)
  {
    SeedAllCovers(st, Seeds, now);
    SeedAllWhenCovered(SeedAll(st, Seeds, now), Seeds, later);
  }

  /** After start-up every one of the five types has at least one template. */
  lemma SeedingCoversAllTypes(st: Db, now: Clock)
    ensures var ts := SeedAll(st, Seeds, now).templates;
      && HasTemplateOfType(ts, "blog_post") && HasTemplateOfType(ts, "article")
      && HasTemplateOfType(ts, "social_media") && HasTemplateOfType(ts, "marketing_copy")
      && HasTemplateOfType(ts, "video_script")
  {
    SeedAllCovers(st, Seeds, now);
    assert Seeds[0] in Seeds && Seeds[1] in Seeds && Seeds[2] in Seeds;
    assert Seeds[3] in Seeds && Seeds[4] in Seeds;
  }

  /** A seed prompt holds `{topic}` right after its leading text. */
  lemma PlaceholderAt(s: Seed)
    ensures |s.before| + 7 <= |SeedPrompt(s)|
    ensures SeedPrompt(s)[|s.before|..|s.before| + 7] == "{topic}"
  {
    assert SeedPrompt(s) == s.before + ("{topic}" + s.after);
  }

  /** A seed whose text around the placeholder is brace-free formats: its
      one `{topic}` is replaced by the title. */
  lemma SeedFormats(s: Seed, topic: string)
    requires BraceFree(s.before) && BraceFree(s.after)
    ensures FormatTopic(SeedPrompt(s), topic) == Some(s.before + topic + s.after)
  {
    FormatOneField(s.before, s.after, topic);
  }

  /** Every seed has a positive word count and its prompt contains
      `{topic}`, at the end of the text before it. */
  lemma SeedsWellFormed()
    ensures forall k :: 0 <= k < |Seeds| ==> Seeds[k].defaultWordCount > 0
    ensures forall k :: 0 <= k < |Seeds| ==>
      var p := SeedPrompt(Seeds[k]);
      |Seeds[k].before| + 7 <= |p| && p[|Seeds[k].before|..|Seeds[k].before| + 7] == "{topic}"
  {
    forall k | 0 <= k < |Seeds|
      ensures var p := SeedPrompt(Seeds[k]);
        |Seeds[k].before| + 7 <= |p| && p[|Seeds[k].before|..|Seeds[k].before| + 7] == "{topic}"
    {
      PlaceholderAt(Seeds[k]);
    }
  }

  lemma {:induction false} SeedAllPreservesValid(st: Db, seeds: seq<Seed>, now: Clock)
    requires Valid(st)
    ensures Valid(SeedAll(st, seeds, now))
    decreases |seeds|
  {
    if |seeds| > 0 {
      var mid := SeedAll(st, seeds[..|seeds| - 1], now);
      SeedAllPreservesValid(st, seeds[..|seeds| - 1], now);
      var s := seeds[|seeds| - 1];
      if !HasTemplateOfType(mid.templates, s.contentType) {
        KeyedAppend(mid.templates, TemplateKey, mid.nextTemplateId, SeedTemplate(mid.nextTemplateId, s, now));
      }
    }
  }

  /** The seeding loop over any list of seeds. */
  method SeedTemplates(db: Database, seeds: seq<Seed>, now: Clock)
    modifies db
    ensures db.State() == SeedAll(old(db.State()), seeds, now)
  {
    var i := 0;
    while i < |seeds|
      invariant 0 <= i <= |seeds|
      invariant db.State() == SeedAll(old(db.State()), seeds[..i], now)
    {
      var seed := seeds[i];
      var existing := FirstCovering(db.templates, seed.contentType);
      if !existing {
        var template := SeedTemplate(db.nextTemplateId, seed, now);
        db.templates := db.templates + [template];
        db.nextTemplateId := db.nextTemplateId + 1;
      }
      assert seeds[..i + 1][..i] == seeds[..i];
      i := i + 1;
    }
    assert seeds[..|seeds|] == seeds;
  }

  /** `initialize_content_templates`, with a commit that succeeds. */
  method InitializeContentTemplates(db: Database, now: Clock)
    modifies db
    ensures db.State() == SeedAll(old(db.State()), Seeds, now)
  {
    SeedTemplates(db, Seeds, now);
  }

  /** Whether the type query finds a row. */
  method FirstCovering(templates: seq<ContentTemplate>, contentType: string) returns (found: bool)
    ensures found <==> HasTemplateOfType(templates, contentType)
  {
    var i := 0;
    while i < |templates|
      invariant 0 <= i <= |templates|
      invariant forall j :: 0 <= j < i ==> templates[j].contentType != contentType
    {
      if templates[i].contentType == contentType {
        return true;
      }
      i := i + 1;
    }
    return false;
  }

  // ---------------------------------------------------------------------
  // create_admin_user

  const AdminName := "admin"
  const AdminEmail := "admin@contentgenius.com"
  const AdminPassword := "admin123"

  /** `create_admin_user`, with a commit that succeeds: an account named
      'admin' is left as it is; otherwise an active admin is added with the
      hash of the default password. */
  function CreateAdminSpec(st: Db, hash: string -> string): Db {
    if UserByName(st, AdminName).Some? then st
    else
      var admin := User(st.nextUserId, AdminName, AdminEmail, hash(AdminPassword), "Admin", "User", true, true);
      st.(users := st.users + [admin], nextUserId := st.nextUserId + 1)
  }

  /** Afterwards a user named 'admin' exists; it is an admin when it was
      created now, and an existing one (admin or not) is untouched. */
  lemma CreateAdminOutcome(st: Db, hash: string -> string)
    ensures var st' := CreateAdminSpec(st, hash);
      && UserByName(st', AdminName).Some?
      && (UserByName(st, AdminName).Some? ==> st' == st)
      && (UserByName(st, AdminName).None? ==>
            && UserByName(st', AdminName) == Some(|st.users|)
            && st'.users[|st.users|].isAdmin && st'.users[|st.users|].isActive
            && st'.users[|st.users|].passwordHash == hash(AdminPassword)
            && st'.users[..|st.users|] == st.users)
  {
    var st' := CreateAdminSpec(st, hash);
    if UserByName(st, AdminName).None? {
      assert forall j :: 0 <= j < |st.users| ==> st'.users[j] == st.users[j];
      assert st'.users[|st.users|].username == AdminName;
    }
  }

  /** Creating the admin twice is creating it once. */
  lemma CreateAdminIdempotent(st: Db, hash: string -> string)
    ensures CreateAdminSpec(CreateAdminSpec(st, hash), hash) == CreateAdminSpec(st, hash)
  {
    CreateAdminOutcome(st, hash);
  }

  lemma CreateAdminPreservesValid(st: Db, hash: string -> string)
    requires Valid(st)
    ensures Valid(CreateAdminSpec(st, hash))
  {
    if UserByName(st, AdminName).None? {
      var admin := User(st.nextUserId, AdminName, AdminEmail, hash(AdminPassword), "Admin", "User", true, true);
      KeyedAppend(st.users, UserKey, st.nextUserId, admin);
    }
  }

  /** The admin is added only when the name is free, so usernames stay
      unique. */
  lemma CreateAdminKeepsUsernamesUnique(st: Db, hash: string -> string)
    requires UniqueUsernames(st.users)
    ensures UniqueUsernames(CreateAdminSpec(st, hash).users)
  {
    var users' := CreateAdminSpec(st, hash).users;
    if UserByName(st, AdminName).None? {
      forall i, j | 0 <= i < j < |users'| ensures users'[i].username != users'[j].username {
        if j == |st.users| {
          assert users'[i] == st.users[i];
        } else {
          assert users'[i] == st.users[i] && users'[j] == st.users[j];
        }
      }
    }
  }

  /** The email is not looked up: when no user is named 'admin' but one
      already holds the admin address, the address ends up held twice. */
  lemma CreateAdminMayDuplicateEmail(st: Db, hash: string -> string, k: nat)
    requires UserByName(st, AdminName).None?
    requires k < |st.users| && st.users[k].email == AdminEmail
    ensures !UniqueEmails(CreateAdminSpec(st, hash).users)
  {
    var users' := CreateAdminSpec(st, hash).users;
    assert users'[k] == st.users[k];
    assert users'[|st.users|].email == AdminEmail;
  }

  /** With the admin address free, emails stay unique too. */
  lemma CreateAdminKeepsEmailsUnique(st: Db, hash: string -> string)
    requires UniqueEmails(st.users)
    requires forall u :: u in st.users ==> u.email != AdminEmail
    ensures UniqueEmails(CreateAdminSpec(st, hash).users)
  {
    var users' := CreateAdminSpec(st, hash).users;
    if UserByName(st, AdminName).None? {
      forall i, j | 0 <= i < j < |users'| ensures users'[i].email != users'[j].email {
        assert users'[i] == st.users[i];
        if j < |st.users| {
          assert users'[j] == st.users[j];
        }
      }
    }
  }

  method CreateAdminUser(db: Database, hash: string -> string)
    modifies db
    ensures db.State() == CreateAdminSpec(old(db.State()), hash)
  {
    var existing := UserByName(db.State(), AdminName);
    if existing.None? {
      var admin := User(db.nextUserId, AdminName, AdminEmail, hash(AdminPassword), "Admin", "User", true, true);
      db.users := db.users + [admin];
      db.nextUserId := db.nextUserId + 1;
    }
  }
}
