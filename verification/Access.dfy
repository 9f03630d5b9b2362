/** Who may do what, told twice: the role model of app/access.py, and the
    row-level security policies on alerts that Postgres enforces from the
    settings each transaction carries. */
module Access {
  import opened Common
  import opened Decimal

  datatype Role = Viewer | Responder | Admin

  function Rank(r: Role): nat {
    match r
    case Viewer => 1
    case Responder => 2
    case Admin => 3
  }

  datatype TeamAccess = TeamAccess(id: int, slug: string, name: string, role: Role)

  datatype Principal = Principal(userId: int, email: Option<string>, name: Option<string>, orgAdmin: bool,
                                 teams: seq<TeamAccess>)

  function FirstRole(teams: seq<TeamAccess>, teamId: int): Option<Role> {
    if teams == [] then None
    else if teams[0].id == teamId then Some(teams[0].role)
    else FirstRole(teams[1..], teamId)
  }

  /** `Principal.role_in` */
  function RoleIn(p: Principal, teamId: int): Option<Role> {
    if p.orgAdmin then Some(Admin) else FirstRole(p.teams, teamId)
  }

  function IdsAtLeast(teams: seq<TeamAccess>, least: Role): seq<int> {
    if teams == [] then []
    else (if Rank(teams[0].role) >= Rank(least) then [teams[0].id] else []) + IdsAtLeast(teams[1..], least)
  }

  /** `Principal.team_ids`; None means every team. */
  function TeamIds(p: Principal, least: Role): Option<seq<int>> {
    if p.orgAdmin then None else Some(IdsAtLeast(p.teams, least))
  }

  /** `require_role`: it passes, or raises a 404 or a 403. */
  datatype Verdict = Allowed | NotFound | Forbidden

  function RequireRole(p: Principal, teamId: int, needed: Role): Verdict {
    var role := RoleIn(p, teamId);
    if role.None? then NotFound
    else if Rank(role.value) < Rank(needed) then Forbidden
    else Allowed
  }

  // ---- What Postgres is told -----------------------------------------------------

  function IdTexts(ids: seq<int>): seq<string> {
    seq(|ids|, i requires 0 <= i < |ids| => IntText(ids[i]))
  }

  function ArrayText(ids: Option<seq<int>>): string {
    "{" + Join(IdTexts(if ids.Some? then ids.value else []), ",") + "}"
  }

  /** The settings: "app.user_id", "app.org_admin", "app.service" and
      "app.read_team_ids", "app.write_team_ids", "app.admin_team_ids". */
  datatype Name = UserId | OrgAdmin | Service | ReadTeamIds | WriteTeamIds | AdminTeamIds

  const ON := "on"
  const OFF := "off"

  /** `tenant_settings` */
  function TenantSettings(p: Principal): map<Name, string> {
    map[UserId := IntText(p.userId),
        OrgAdmin := if p.orgAdmin then ON else OFF,
        ReadTeamIds := ArrayText(TeamIds(p, Viewer)),
        WriteTeamIds := ArrayText(TeamIds(p, Responder)),
        AdminTeamIds := ArrayText(TeamIds(p, Admin))]
  }

  // ---- What Postgres makes of it ---------------------------------------------------

  function SplitAt(s: string, c: char): seq<string>
    decreases |s|
  {
    var i := IndexOf(s, c);
    if i == |s| then [s] else [s[..i]] + SplitAt(s[i + 1..], c)
  }

  function ReadAll(texts: seq<string>): Option<seq<int>> {
    if texts == [] then Some([])
    else
      var first := ReadInt(texts[0]);
      var rest := ReadAll(texts[1..]);
      if first.Unreadable? || rest.None? then None else Some([first.value] + rest.value)
  }

  /** The cast of a text to bigint[]: None is an error. */
  function ReadArray(s: string): Option<seq<int>> {
    if |s| < 2 || s[0] != '{' || s[|s| - 1] != '}' then None
    else
      var inner := s[1..|s| - 1];
      if |inner| == 0 then Some([]) else ReadAll(SplitAt(inner, ','))
  }

  /** What current_setting(name, true) gives: None before the setting was ever
      made on the connection. */
  type Settings = Name -> Option<string>

  /** tenant_team_ids: NULL and '' both mean no teams. */
  function TenantTeamIds(value: Option<string>): Option<seq<int>> {
    if value.None? || |value.value| == 0 then Some([]) else ReadArray(value.value)
  }

  /** team_id = ANY (...): a row passes only when the whole is true, so NULL
      counts as false. */
  predicate InTeamIds(value: Option<string>, teamId: int) {
    var ids := TenantTeamIds(value);
    ids.Some? && teamId in ids.value
  }

  predicate IsOrgAdmin(s: Settings) {
    s(OrgAdmin) == Some("on")
  }

  predicate IsService(s: Settings) {
    s(Service) == Some("alertmanager")
  }

  predicate MaySelect(s: Settings, teamId: int) {
    IsOrgAdmin(s) || IsService(s) || InTeamIds(s(ReadTeamIds), teamId)
  }

  predicate MayInsert(s: Settings, teamId: int) {
    IsOrgAdmin(s) || IsService(s) || InTeamIds(s(WriteTeamIds), teamId)
  }

  predicate MayDelete(s: Settings, teamId: int) {
    IsOrgAdmin(s) || InTeamIds(s(AdminTeamIds), teamId)
  }

  /** No policy fails with an error. */
  ghost predicate Readable(s: Settings) {
    TenantTeamIds(s(ReadTeamIds)).Some? && TenantTeamIds(s(WriteTeamIds)).Some?
    && TenantTeamIds(s(AdminTeamIds)).Some?
  }

  // ---- Array literals read back ------------------------------------------------------

  lemma SplitFirst(head: string, c: char, rest: string)
    requires c !in head
    ensures SplitAt(head, c) == [head]
    ensures SplitAt(head + [c] + rest, c) == [head] + SplitAt(rest, c)
  {
    var s := head + [c] + rest;
    IndexOfIs(head, c, |head|);
    IndexOfIs(s, c, |head|);
    assert s[..|head|] == head && s[|head| + 1..] == rest;
  }

  lemma {:induction false} SplitJoined(texts: seq<string>, c: char)
    requires texts != [] && forall i | 0 <= i < |texts| :: c !in texts[i]
    ensures SplitAt(Join(texts, [c]), c) == texts
  {
    hide SplitAt;
    SplitFirst(texts[0], c, Join(texts[1..], [c]));
    if |texts| == 1 {
      assert texts == [texts[0]];
    } else {
      SplitJoined(texts[1..], c);
      assert texts == [texts[0]] + texts[1..];
    }
  }

  lemma ReadFirst(text: string, texts: seq<string>)
    requires ReadInt(text).Read? && ReadAll(texts).Some?
    ensures ReadAll([text] + texts) == Some([ReadInt(text).value] + ReadAll(texts).value)
  {
    hide ReadInt;
    assert ([text] + texts)[1..] == texts;
  }

  lemma {:induction false} ReadTexts(ids: seq<int>)
    ensures ReadAll(IdTexts(ids)) == Some(ids)
  {
    hide ReadInt, IntText;
    if ids != [] {
      hide ReadAll;
      IntTextReadsBack(ids[0]);
      ReadTexts(ids[1..]);
      assert IdTexts(ids) == [IntText(ids[0])] + IdTexts(ids[1..]);
      ReadFirst(IntText(ids[0]), IdTexts(ids[1..]));
      assert [ids[0]] + ids[1..] == ids;
    }
  }

  lemma NoComma(n: int)
    ensures ',' !in IntText(n) && IntText(n) != ""
  {
    var digits := NatText(if n < 0 then -n else n);
    assert forall i | 0 <= i < |digits| :: IsDigit(digits[i]);
  }

  /** The array Postgres reads is the array the app printed. */
  lemma ArrayReadsBack(ids: seq<int>)
    ensures ReadArray(ArrayText(Some(ids))) == Some(ids)
    ensures |ArrayText(Some(ids))| > 0
  {
    var texts := IdTexts(ids);
    var inner := Join(texts, ",");
    var s := ArrayText(Some(ids));
    assert s[1..|s| - 1] == inner;
    if ids == [] {
      assert texts == [];
    } else {
      forall i | 0 <= i < |texts| ensures ',' !in texts[i] { NoComma(ids[i]); }
      NoComma(ids[0]);
      assert |inner| >= |texts[0]|;
      SplitJoined(texts, ',');
      ReadTexts(ids);
    }
  }

  // ---- The two agree -------------------------------------------------------------------

  /** These settings are in force, and nothing else is set but, perhaps, what
      an earlier transaction left empty. */
  ghost predicate InForce(s: Settings, values: map<Name, string>) {
    forall name: Name ::
      if name in values then s(name) == Some(values[name]) else s(name).None? || s(name) == Some("")
  }

  lemma {:induction false} IdsHold(teams: seq<TeamAccess>, least: Role, id: int)
    ensures id in IdsAtLeast(teams, least)
            <==> exists i | 0 <= i < |teams| :: teams[i].id == id && Rank(teams[i].role) >= Rank(least)
  {
    if teams != [] {
      IdsHold(teams[1..], least, id);
      if id in IdsAtLeast(teams[1..], least) {
        var i :| 0 <= i < |teams| - 1 && teams[1..][i].id == id && Rank(teams[1..][i].role) >= Rank(least);
        assert teams[i + 1] == teams[1..][i];
      }
      if i: nat :| i < |teams| && teams[i].id == id && Rank(teams[i].role) >= Rank(least) {
        assert i > 0 ==> teams[1..][i - 1] == teams[i];
      }
    }
  }

  lemma TeamSetting(value: Option<string>, ids: seq<int>, teamId: int)
    requires value == Some(ArrayText(Some(ids)))
    ensures TenantTeamIds(value).Some? && (InTeamIds(value, teamId) <==> teamId in ids)
  {
    ArrayReadsBack(ids);
    hide ArrayText, ReadArray;
  }

  lemma SettingsAre(p: Principal)
    ensures var v := TenantSettings(p);
            var ids := (least: Role) => if p.orgAdmin then [] else IdsAtLeast(p.teams, least);
            && Service !in v && OrgAdmin in v && (v[OrgAdmin] == ON <==> p.orgAdmin)
            && ReadTeamIds in v && v[ReadTeamIds] == ArrayText(Some(ids(Viewer)))
            && WriteTeamIds in v && v[WriteTeamIds] == ArrayText(Some(ids(Responder)))
            && AdminTeamIds in v && v[AdminTeamIds] == ArrayText(Some(ids(Admin)))
  {
    assert ArrayText(None) == ArrayText(Some([]));
    assert |ON| != |OFF|;
    hide ArrayText, IdsAtLeast;
  }

  /** An entry of that team with one of those roles. */
  ghost predicate Holds(teams: seq<TeamAccess>, teamId: int, roles: set<Role>) {
    exists i | 0 <= i < |teams| :: teams[i].id == teamId && teams[i].role in roles
  }

  lemma IdsAtLeastAre(teams: seq<TeamAccess>, id: int)
    ensures id in IdsAtLeast(teams, Viewer) <==> Holds(teams, id, {Viewer, Responder, Admin})
    ensures id in IdsAtLeast(teams, Responder) <==> Holds(teams, id, {Responder, Admin})
    ensures id in IdsAtLeast(teams, Admin) <==> Holds(teams, id, {Admin})
  {
    IdsHold(teams, Viewer, id);
    IdsHold(teams, Responder, id);
    IdsHold(teams, Admin, id);
    hide IdsAtLeast;
  }

  lemma PoliciesUse(p: Principal, s: Settings, teamId: int)
    requires InForce(s, TenantSettings(p))
    ensures Readable(s)
    ensures MaySelect(s, teamId) <==> p.orgAdmin || teamId in IdsAtLeast(p.teams, Viewer)
    ensures MayInsert(s, teamId) <==> p.orgAdmin || teamId in IdsAtLeast(p.teams, Responder)
    ensures MayDelete(s, teamId) <==> p.orgAdmin || teamId in IdsAtLeast(p.teams, Admin)
  {
    SettingsAre(p);
    assert !IsService(s) by { assert |"alertmanager"| > 0; assert Service !in TenantSettings(p); }
    var ids := (least: Role) => if p.orgAdmin then [] else IdsAtLeast(p.teams, least);
    hide TenantSettings, ArrayText, InTeamIds, TenantTeamIds, IdsAtLeast;
    TeamSetting(s(ReadTeamIds), ids(Viewer), teamId);
    TeamSetting(s(WriteTeamIds), ids(Responder), teamId);
    TeamSetting(s(AdminTeamIds), ids(Admin), teamId);
  }

  /** What the policies admit under a principal's settings: a member of a team
      reads its alerts, a responder or an admin adds to them, and an admin
      deletes them; an org admin does all of it everywhere. */
  lemma PoliciesAre(p: Principal, s: Settings, teamId: int)
    requires InForce(s, TenantSettings(p))
    ensures Readable(s)
    ensures MaySelect(s, teamId) <==> p.orgAdmin || Holds(p.teams, teamId, {Viewer, Responder, Admin})
    ensures MayInsert(s, teamId) <==> p.orgAdmin || Holds(p.teams, teamId, {Responder, Admin})
    ensures MayDelete(s, teamId) <==> p.orgAdmin || Holds(p.teams, teamId, {Admin})
  {
    hide *;
    PoliciesUse(p, s, teamId);
    IdsAtLeastAre(p.teams, teamId);
  }

  /** The settings name the user: what is read back is the user's id. */
  lemma SettingsNameUser(p: Principal)
    ensures UserId in TenantSettings(p) && ReadInt(TenantSettings(p)[UserId]) == Read(p.userId)
  {
    IntTextReadsBack(p.userId);
    hide ArrayText, TeamIds, ReadInt, IntText;
  }

  /** Under Alertmanager's settings every team's alerts may be read and added
      to, and none deleted. */
  lemma AlertmanagerIngests(s: Settings, teamId: int)
    requires InForce(s, map[Service := "alertmanager"])
    ensures Readable(s) && MaySelect(s, teamId) && MayInsert(s, teamId) && !MayDelete(s, teamId)
  {
    assert forall name: Name | name != Service :: s(name).None? || s(name) == Some("");
    assert s(Service) == Some("alertmanager") && s(OrgAdmin) != Some("on");
    hide ReadArray;
  }

  /** The database admits reading, adding and deleting a team's alerts exactly
      as the role model does. */
  ghost predicate Agree(p: Principal, s: Settings, teamId: int) {
    && (MaySelect(s, teamId) <==> RequireRole(p, teamId, Viewer).Allowed?)
    && (MayInsert(s, teamId) <==> RequireRole(p, teamId, Responder).Allowed?)
    && (MayDelete(s, teamId) <==> RequireRole(p, teamId, Admin).Allowed?)
  }

  predicate IsFirst(teams: seq<TeamAccess>, i: nat)
    requires i < |teams|
  {
    forall k | 0 <= k < i :: teams[k].id != teams[i].id
  }

  /** No entry for a team has a higher role than that team's first. */
  predicate FirstIsHighest(teams: seq<TeamAccess>) {
    forall i, j | 0 <= i < j < |teams| && teams[i].id == teams[j].id && IsFirst(teams, i) ::
      Rank(teams[j].role) <= Rank(teams[i].role)
  }

  lemma {:induction false} FirstRoleIs(teams: seq<TeamAccess>, id: int) returns (i: nat)
    ensures i <= |teams| && (forall k | 0 <= k < i :: teams[k].id != id)
    ensures i < |teams| ==> teams[i].id == id && FirstRole(teams, id) == Some(teams[i].role)
    ensures i == |teams| ==> FirstRole(teams, id).None?
  {
    if teams == [] || teams[0].id == id {
      i := 0;
    } else {
      var j := FirstRoleIs(teams[1..], id);
      i := j + 1;
      assert forall k | 1 <= k < i :: teams[k] == teams[1..][k - 1];
    }
  }

  lemma FirstRoleDecides(teams: seq<TeamAccess>, least: Role, id: int)
    requires FirstIsHighest(teams)
    ensures id in IdsAtLeast(teams, least)
            <==> FirstRole(teams, id).Some? && Rank(FirstRole(teams, id).value) >= Rank(least)
  {
    IdsHold(teams, least, id);
    var i := FirstRoleIs(teams, id);
    hide IdsAtLeast, FirstRole, Rank;
    if id in IdsAtLeast(teams, least) {
      var j :| 0 <= j < |teams| && teams[j].id == id && Rank(teams[j].role) >= Rank(least);
      assert i <= j && IsFirst(teams, i);
      assert i == j || Rank(teams[j].role) <= Rank(teams[i].role);
    }
  }

  lemma AgreeWhenFirstIsHighest(p: Principal, s: Settings, teamId: int)
    requires InForce(s, TenantSettings(p)) && (p.orgAdmin || FirstIsHighest(p.teams))
    ensures Agree(p, s, teamId)
  {
    hide TenantSettings, MaySelect, MayInsert, MayDelete, InForce, FirstIsHighest, FirstRole, IdsAtLeast;
    PoliciesUse(p, s, teamId);
    if !p.orgAdmin {
      FirstRoleDecides(p.teams, Viewer, teamId);
      FirstRoleDecides(p.teams, Responder, teamId);
      FirstRoleDecides(p.teams, Admin, teamId);
    }
  }

  /** `team_ids` lists what `require_role` lets pass: None, every team, for an
      org admin and for no one else. */
  lemma TeamIdsAgree(p: Principal, least: Role, teamId: int)
    requires p.orgAdmin || FirstIsHighest(p.teams)
    ensures TeamIds(p, least).None? <==> p.orgAdmin
    ensures TeamIds(p, least).None? || teamId in TeamIds(p, least).value <==> RequireRole(p, teamId, least).Allowed?
    ensures RequireRole(p, teamId, Viewer).NotFound?
            <==> !p.orgAdmin && forall i | 0 <= i < |p.teams| :: p.teams[i].id != teamId
  {
    var i := FirstRoleIs(p.teams, teamId);
    if !p.orgAdmin { FirstRoleDecides(p.teams, least, teamId); }
    hide IdsAtLeast, FirstRole, FirstIsHighest;
  }

  /** The settings a fresh connection shows. */
  function Fresh(values: map<Name, string>): Settings {
    name => if name in values then Some(values[name]) else None
  }

  /** A team listed twice, its lower role first. */
  lemma DisagreeOnRepeatedTeam(p: Principal) returns (teamId: int)
    requires !p.orgAdmin && !FirstIsHighest(p.teams)
    ensures InForce(Fresh(TenantSettings(p)), TenantSettings(p)) && !Agree(p, Fresh(TenantSettings(p)), teamId)
  {
    var i, j :| 0 <= i < j < |p.teams| && p.teams[i].id == p.teams[j].id && IsFirst(p.teams, i)
                && Rank(p.teams[j].role) > Rank(p.teams[i].role);
    teamId := p.teams[i].id;
    FreshIsInForce(TenantSettings(p));
    DisagreeAt(p, Fresh(TenantSettings(p)), i, j);
  }

  lemma FreshIsInForce(values: map<Name, string>)
    ensures InForce(Fresh(values), values)
  {
  }

  lemma DisagreeAt(p: Principal, s: Settings, i: nat, j: nat)
    requires !p.orgAdmin && InForce(s, TenantSettings(p))
    requires i < j < |p.teams| && p.teams[i].id == p.teams[j].id && IsFirst(p.teams, i)
    requires Rank(p.teams[j].role) > Rank(p.teams[i].role)
    ensures !Agree(p, s, p.teams[i].id)
  {
    hide TenantSettings, MaySelect, MayInsert, MayDelete, InForce, IdsAtLeast, FirstRole;
    var teamId := p.teams[i].id;
    PoliciesUse(p, s, teamId);
    IdsHold(p.teams, p.teams[j].role, teamId);
    var first := FirstRoleIs(p.teams, teamId);
    assert first == i;
    assert RequireRole(p, teamId, p.teams[j].role).Forbidden?;
  }

  /** With a principal's settings in force, the policies and the role model
      agree on every team exactly when no team is listed twice with a higher
      role later: `role_in` takes a team's first entry, `team_ids` any. */
  lemma PoliciesAgreeExactly(p: Principal)
    ensures (forall s: Settings, teamId | InForce(s, TenantSettings(p)) :: Agree(p, s, teamId))
            <==> p.orgAdmin || FirstIsHighest(p.teams)
  {
    hide TenantSettings, FirstIsHighest, Agree, InForce, Fresh;
    if p.orgAdmin || FirstIsHighest(p.teams) {
      forall s: Settings, teamId | InForce(s, TenantSettings(p)) ensures Agree(p, s, teamId) {
        AgreeWhenFirstIsHighest(p, s, teamId);
      }
    } else {
      var teamId := DisagreeOnRepeatedTeam(p);
      assert !Agree(p, Fresh(TenantSettings(p)), teamId);
    }
  }

  /** Memberships have one row per team: then they always agree. */
  lemma PoliciesAgree(p: Principal, s: Settings, teamId: int)
    requires InForce(s, TenantSettings(p))
    requires forall i, j | 0 <= i < j < |p.teams| :: p.teams[i].id != p.teams[j].id
    ensures Agree(p, s, teamId)
  {
    hide TenantSettings, Agree, InForce;
    AgreeWhenFirstIsHighest(p, s, teamId);
  }

  /** Nobody's settings: no rows, and no error. */
  lemma NoContextNoRows(s: Settings, teamId: int)
    requires InForce(s, map[])
    ensures Readable(s) && !MaySelect(s, teamId) && !MayInsert(s, teamId) && !MayDelete(s, teamId)
  {
    assert |"on"| > 0 && |"alertmanager"| > 0;
    assert forall name: Name :: s(name).None? || s(name) == Some("");
    hide ReadArray;
  }

  // ---- access_from_claims ------------------------------------------------------------------

  datatype Grant = OrgAdminGroup | TeamRole(slug: string, role: Role) | Ignored

  predicate SlugChar(c: char) {
    'a' <= c <= 'z' || IsDigit(c)
  }

  /** [a-z0-9][a-z0-9-]{0,62} */
  predicate IsSlug(s: string) {
    1 <= |s| <= 63 && SlugChar(s[0]) && forall i | 0 <= i < |s| :: SlugChar(s[i]) || s[i] == '-'
  }

  /** viewer|responder|admin, and a newline that $ lets pass. */
  function RoleNamed(s: string): Option<Role> {
    var name := if |s| > 0 && s[|s| - 1] == '\n' then s[..|s| - 1] else s;
    if name == "viewer" then Some(Viewer)
    else if name == "responder" then Some(Responder)
    else if name == "admin" then Some(Admin)
    else None
  }

  function WithoutSlash(group: string): string {
    if |group| > 0 && group[0] == '/' then group[1..] else group
  }

  /** What one group of the claim grants. */
  function GrantOf(group: string): Grant {
    GrantOfValue(WithoutSlash(group))
  }

  function GrantOfValue(value: string): Grant {
    if value == "org:admin" then OrgAdminGroup
    else if |value| < 5 || value[..5] != "team:" then Ignored
    else
      var t := value[5..];
      var i := IndexOf(t, ':');
      if i < |t| && IsSlug(t[..i]) && RoleNamed(t[i + 1..]).Some? then TeamRole(t[..i], RoleNamed(t[i + 1..]).value)
      else Ignored
  }

  /** [a-z0-9] and [a-z0-9-], 1 to 63 of them. */
  ghost predicate SlugText(s: string) {
    1 <= |s| <= 63 && s[0] != '-' && forall i | 0 <= i < |s| :: 'a' <= s[i] <= 'z' || '0' <= s[i] <= '9' || s[i] == '-'
  }

  /** How a group that grants a role in a team is written: Keycloak may put a
      slash first, and the pattern lets a newline pass at the end. */
  function GroupText(slash: bool, slug: string, name: string, newline: bool): string {
    (if slash then "/" else "") + ("team:" + (slug + (":" + (name + (if newline then "\n" else "")))))
  }

  lemma RolesNamed(newline: bool)
    ensures var end := if newline then "\n" else "";
            RoleNamed("viewer" + end) == Some(Viewer) && RoleNamed("responder" + end) == Some(Responder)
            && RoleNamed("admin" + end) == Some(Admin)
  {
    assert ("viewer" + "\n")[..6] == "viewer" && "viewer" + "" == "viewer";
    assert ("responder" + "\n")[..9] == "responder" && "responder" + "" == "responder";
    assert ("admin" + "\n")[..5] == "admin" && "admin" + "" == "admin";
  }

  lemma NoSlash(slash: bool, value: string)
    requires |value| > 0 && value[0] != '/'
    ensures WithoutSlash((if slash then "/" else "") + value) == value
  {
    if slash { assert ("/" + value)[1..] == value; } else { assert "" + value == value; }
  }

  lemma TeamGrant(slug: string, named: string)
    requires SlugText(slug) && RoleNamed(named).Some?
    ensures GrantOfValue("team:" + (slug + (":" + named))) == TeamRole(slug, RoleNamed(named).value)
  {
    var t := slug + (":" + named);
    var value := "team:" + t;
    assert value[..5] == "team:" && value[5..] == t && value[0] != 'o';
    ColonEnds(slug, named);
    hide RoleNamed;
  }

  lemma ColonEnds(slug: string, named: string)
    requires SlugText(slug)
    ensures var t := slug + (":" + named);
            IndexOf(t, ':') == |slug| && |slug| < |t| && t[..|slug|] == slug && t[|slug| + 1..] == named && IsSlug(slug)
  {
    var t := slug + (":" + named);
    assert t[|slug|] == ':';
    assert t[|slug| + 1..] == named;
    assert forall i | 0 <= i < |slug| :: t[i] == slug[i] && slug[i] != ':';
  }

  lemma TeamGroup(slash: bool, slug: string, name: string, newline: bool)
    requires SlugText(slug) && RoleNamed(name + (if newline then "\n" else "")).Some?
    ensures GrantOf(GroupText(slash, slug, name, newline))
            == TeamRole(slug, RoleNamed(name + (if newline then "\n" else "")).value)
  {
    var named := name + (if newline then "\n" else "");
    var value := "team:" + (slug + (":" + named));
    assert value[0] == 't';
    hide RoleNamed, GrantOfValue;
    NoSlash(slash, value);
    TeamGrant(slug, named);
  }

  /** A group named after a team and a role grants that role in that team. */
  lemma GroupGrants(slash: bool, slug: string, newline: bool)
    requires SlugText(slug)
    ensures GrantOf(GroupText(slash, slug, "viewer", newline)) == TeamRole(slug, Viewer)
    ensures GrantOf(GroupText(slash, slug, "responder", newline)) == TeamRole(slug, Responder)
    ensures GrantOf(GroupText(slash, slug, "admin", newline)) == TeamRole(slug, Admin)
  {
    hide RoleNamed, GrantOf, GroupText, SlugText;
    RolesNamed(newline);
    TeamGroup(slash, slug, "viewer", newline);
    TeamGroup(slash, slug, "responder", newline);
    TeamGroup(slash, slug, "admin", newline);
  }

  /** The organisation's own group, with or without the slash. */
  lemma OrgAdminGrants(group: string)
    ensures GrantOf(group) == OrgAdminGroup <==> group == "org:admin" || group == "/org:admin"
  {
    assert "/org:admin"[1..] == "org:admin";
    if |group| > 0 && group[0] == '/' { assert group == "/" + group[1..]; }
  }

  /** Nothing else grants a role. */
  lemma OnlyGroupsGrant(group: string) returns (slash: bool, name: string, newline: bool)
    requires GrantOf(group).TeamRole?
    ensures SlugText(GrantOf(group).slug)
    ensures group == GroupText(slash, GrantOf(group).slug, name, newline)
    ensures match GrantOf(group).role
            case Viewer => name == "viewer"
            case Responder => name == "responder"
            case Admin => name == "admin"
  {
    var value := WithoutSlash(group);
    slash := |group| > 0 && group[0] == '/';
    assert group == (if slash then "/" else "") + value;
    var slug, named := GrantParts(value);
    name, newline := NameParts(named);
    hide RoleNamed, GrantOfValue, SlugText;
  }

  lemma GrantParts(value: string) returns (slug: string, named: string)
    requires GrantOfValue(value).TeamRole?
    ensures value == "team:" + (slug + (":" + named)) && SlugText(slug)
    ensures RoleNamed(named).Some? && GrantOfValue(value) == TeamRole(slug, RoleNamed(named).value)
  {
    hide RoleNamed;
    var t := value[5..];
    var i := IndexOf(t, ':');
    slug, named := t[..i], t[i + 1..];
    assert value == "team:" + t;
    assert t == slug + (":" + named);
  }

  lemma NameParts(named: string) returns (name: string, newline: bool)
    requires RoleNamed(named).Some?
    ensures named == name + (if newline then "\n" else "")
    ensures match RoleNamed(named).value
            case Viewer => name == "viewer"
            case Responder => name == "responder"
            case Admin => name == "admin"
  {
    newline := |named| > 0 && named[|named| - 1] == '\n';
    name := if newline then named[..|named| - 1] else named;
    if newline { assert named == named[..|named| - 1] + "\n"; } else { assert named == named + ""; }
  }

  /** The highest role any group grants in each team. */
  ghost predicate HighestRoles(groups: seq<string>, roles: map<string, Role>) {
    && (forall slug | slug in roles ::
          exists i | 0 <= i < |groups| :: GrantOf(groups[i]) == TeamRole(slug, roles[slug]))
    && (forall i | 0 <= i < |groups| && GrantOf(groups[i]).TeamRole? ::
          GrantOf(groups[i]).slug in roles && Rank(GrantOf(groups[i]).role) <= Rank(roles[GrantOf(groups[i]).slug]))
  }

  method AccessFromClaims(groups: seq<string>) returns (roles: map<string, Role>, orgAdmin: bool)
    ensures HighestRoles(groups, roles)
    ensures orgAdmin <==> exists i | 0 <= i < |groups| :: GrantOf(groups[i]) == OrgAdminGroup
  {
    hide GrantOf, HighestRoles;
    roles, orgAdmin := map[], false;
    NoGroups();
    assert groups[..0] == [];
    for n := 0 to |groups|
      invariant HighestRoles(groups[..n], roles)
      invariant orgAdmin <==> exists i | 0 <= i < n :: GrantOf(groups[i]) == OrgAdminGroup
    {
      var grant := GrantOf(groups[n]);
      ghost var before := roles;
      match grant {
        case OrgAdminGroup => orgAdmin := true;
        case TeamRole(slug, role) =>
          var have := if slug in roles then roles[slug] else role;
          roles := roles[slug := if Rank(role) >= Rank(have) then role else have];
        case Ignored =>
      }
      OneMoreGroup(groups, n, before, roles);
    }
    assert groups[..|groups|] == groups;
  }

  lemma NoGroups()
    ensures HighestRoles([], map[])
  {
  }

  lemma OneMoreGroup(groups: seq<string>, n: nat, before: map<string, Role>, after: map<string, Role>)
    requires n < |groups| && HighestRoles(groups[..n], before)
    requires var grant := GrantOf(groups[n]);
             if grant.TeamRole? then
               after == before[grant.slug := if grant.slug !in before || Rank(grant.role) >= Rank(before[grant.slug])
                                             then grant.role else before[grant.slug]]
             else after == before
    ensures HighestRoles(groups[..n + 1], after)
  {
    hide GrantOf;
    var now := groups[..n + 1];
    forall slug | slug in after ensures exists i | 0 <= i < |now| :: GrantOf(now[i]) == TeamRole(slug, after[slug]) {
      if slug in before && after[slug] == before[slug] {
        var i :| 0 <= i < n && GrantOf(groups[..n][i]) == TeamRole(slug, before[slug]);
        assert now[i] == groups[..n][i];
      } else {
        assert now[n] == groups[n];
      }
    }
    forall i | 0 <= i < |now| && GrantOf(now[i]).TeamRole?
      ensures GrantOf(now[i]).slug in after && Rank(GrantOf(now[i]).role) <= Rank(after[GrantOf(now[i]).slug])
    {
      if i < n { assert groups[..n][i] == now[i]; }
    }
  }

  lemma RankIsInjective(a: Role, b: Role)
    requires Rank(a) == Rank(b)
    ensures a == b
  {
  }

  /** The roles do not depend on the order of the groups, nor on repeats. */
  lemma OrderOfGroupsDoesNotMatter(a: seq<string>, b: seq<string>, roles: map<string, Role>, roles': map<string, Role>)
    requires HighestRoles(a, roles) && HighestRoles(b, roles')
    requires (forall g | g in a :: g in b) && forall g | g in b :: g in a
    ensures roles == roles'
  {
    hide GrantOf;
    forall slug | slug in roles ensures slug in roles' && Rank(roles[slug]) <= Rank(roles'[slug]) {
      RolesCover(a, b, roles, roles', slug);
    }
    forall slug | slug in roles' ensures slug in roles && Rank(roles'[slug]) <= Rank(roles[slug]) {
      RolesCover(b, a, roles', roles, slug);
    }
    forall slug | slug in roles ensures roles[slug] == roles'[slug] {
      RankIsInjective(roles[slug], roles'[slug]);
    }
  }

  lemma RolesCover(a: seq<string>, b: seq<string>, roles: map<string, Role>, roles': map<string, Role>, slug: string)
    requires HighestRoles(a, roles) && HighestRoles(b, roles') && slug in roles && forall g | g in a :: g in b
    ensures slug in roles' && Rank(roles[slug]) <= Rank(roles'[slug])
  {
    hide GrantOf;
    var i :| 0 <= i < |a| && GrantOf(a[i]) == TeamRole(slug, roles[slug]);
    assert a[i] in b;
    var j :| 0 <= j < |b| && b[j] == a[i];
  }
}
