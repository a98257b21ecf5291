// Email templates and their version log: src/api/handlers/communication.rs.
module Templates {
  import opened Results
  import opened Runs

  type TemplateId = nat
  type VersionId = nat
  type TenantId = nat

  datatype Content = Content(subject: string, body: string)

  datatype Template = Template(id: TemplateId, tenant: TenantId, name: string, content: Content, kind: string)

  datatype Version = Version(id: VersionId, template: TemplateId, content: Content)

  datatype Request = Request(name: string, content: Content, kind: string)

  // Ids from `nextId` on are unused.
  datatype History = History(templates: map<TemplateId, Template>, versions: seq<Version>, nextId: nat)

  // ---------- The handlers, when no write fails ----------

  function Created(h: History, tenant: TenantId, req: Request): History {
    var t := Template(h.nextId, tenant, req.name, req.content, req.kind);
    History(h.templates[t.id := t], h.versions + [Version(h.nextId + 1, t.id, req.content)], h.nextId + 2)
  }

  predicate Owned(h: History, tenant: TenantId, t: TemplateId) {
    t in h.templates && h.templates[t].tenant == tenant
  }

  function Updated(h: History, tenant: TenantId, t: TemplateId, req: Request): Result<History> {
    if !Owned(h, tenant, t) then Err(NotFound)
    else Ok(History(
           h.templates[t := h.templates[t].(name := req.name, content := req.content, kind := req.kind)],
           h.versions + [Version(h.nextId, t, req.content)], h.nextId + 1))
  }

  function FindVersion(versions: seq<Version>, v: VersionId): Option<Version> {
    if versions == [] then None
    else if versions[0].id == v then Some(versions[0])
    else FindVersion(versions[1..], v)
  }

  function KindOf(isMjml: string -> bool, content: Content): string {
    if isMjml(content.body) then "mjml" else "html"
  }

  function Restored(isMjml: string -> bool, h: History, tenant: TenantId, t: TemplateId,
      v: VersionId): Result<History> {
    if !Owned(h, tenant, t) then Err(NotFound)
    else
      var found := FindVersion(h.versions, v);
      if found.None? then Err(NotFound)
      else if found.value.template != t then Err(Validation)
      else
        var content := found.value.content;
        Ok(History(
          h.templates[t := h.templates[t].(content := content, kind := KindOf(isMjml, content))],
          h.versions + [Version(h.nextId, t, content)], h.nextId + 1))
  }

  // The versions go with their template.
  function Deleted(h: History, tenant: TenantId, t: TemplateId): Result<History> {
    if !Owned(h, tenant, t) then Err(NotFound)
    else Ok(h.(templates := h.templates - {t}, versions := Others(h.versions, t)))
  }

  function Others(versions: seq<Version>, t: TemplateId): seq<Version> {
    if versions == [] then []
    else
      var last := versions[|versions| - 1];
      Others(versions[..|versions| - 1], t) + if last.template != t then [last] else []
  }

  // ---------- The handlers in steps, whose writes may fail ----------

  class TemplateStore {
    const isMjml: string -> bool
    var templates: map<TemplateId, Template>
    var versions: seq<Version>
    var nextId: nat

    constructor (isMjml: string -> bool)
      ensures this.isMjml == isMjml && View() == History(map[], [], 0)
    {
      this.isMjml := isMjml;
      templates, versions, nextId := map[], [], 0;
    }

    function View(): History
      reads this
    {
      History(templates, versions, nextId)
    }

    method WriteTemplate(t: Template, works: bool) returns (r: Result<Template>)
      modifies this`templates
      ensures r == if works then Ok(t) else Err(Database)
      ensures templates == if works then old(templates)[t.id := t] else old(templates)
    {
      if !works {
        return Err(Database);
      }
      templates := templates[t.id := t];
      r := Ok(t);
    }

    method CreateTemplateVersion(t: TemplateId, content: Content, works: bool) returns (r: Result<()>)
      modifies this`versions, this`nextId
      ensures r.Ok? <==> works
      ensures versions == if works then old(versions) + [Version(old(nextId), t, content)] else old(versions)
      ensures nextId == old(nextId) + 1
    {
      var version := Version(nextId, t, content);
      nextId := nextId + 1;
      if !works {
        return Err(Database);
      }
      versions := versions + [version];
      r := Ok(());
    }

    method CreateTemplate(tenant: TenantId, req: Request, writes: bool, logs: bool) returns (r: Result<Template>)
      modifies this
      ensures r.Ok? <==> writes && logs
      ensures r.Ok? ==>
                && View() == Created(old(View()), tenant, req)
                && r.value.id in templates && templates[r.value.id] == r.value
      ensures versions == if writes && logs then Created(old(View()), tenant, req).versions else old(versions)
      ensures templates == if writes then Created(old(View()), tenant, req).templates else old(templates)
    {
      var t := Template(nextId, tenant, req.name, req.content, req.kind);
      nextId := nextId + 1;
      r := WriteTemplate(t, writes);
      if r.Err? {
        return;
      }
      var logged := CreateTemplateVersion(t.id, t.content, logs);
      if logged.Err? {
        r := Err(Database);
      }
    }

    // The version is logged before the template is written.
    method UpdateTemplate(tenant: TenantId, id: TemplateId, req: Request, logs: bool,
        writes: bool) returns (r: Result<Template>)
      requires id in templates ==> templates[id].id == id
      modifies this
      ensures var spec := Updated(old(View()), tenant, id, req);
              && (spec.Err? ==> r == Err(spec.error) && View() == old(View()))
              && (spec.Ok? ==> (r.Ok? <==> logs && writes))
              && (r.Ok? ==> View() == spec.value && r.value == templates[id])
              && (spec.Ok? ==> versions == if logs then spec.value.versions else old(versions))
              && (spec.Ok? ==> templates == if logs && writes then spec.value.templates else old(templates))
    {
      if id !in templates {
        return Err(NotFound);
      }
      var template := templates[id];
      if template.tenant != tenant {
        return Err(NotFound);
      }
      var logged := CreateTemplateVersion(template.id, req.content, logs);
      if logged.Err? {
        return Err(Database);
      }
      template := template.(name := req.name, content := req.content, kind := req.kind);
      r := WriteTemplate(template, writes);
    }

    method GetTemplateVersion(v: VersionId) returns (r: Option<Version>)
      ensures r == FindVersion(versions, v)
    {
      for n := 0 to |versions|
        invariant FindVersion(versions[n..], v) == FindVersion(versions, v)
      {
        if versions[n].id == v {
          return Some(versions[n]);
        }
        assert versions[n..][1..] == versions[n + 1..];
      }
      r := None;
    }

    // The template is written before the version is logged.
    method RestoreVersion(tenant: TenantId, id: TemplateId, v: VersionId, writes: bool,
        logs: bool) returns (r: Result<Template>)
      requires id in templates ==> templates[id].id == id
      modifies this
      ensures var spec := Restored(isMjml, old(View()), tenant, id, v);
              && (spec.Err? ==> r == Err(spec.error) && View() == old(View()))
              && (spec.Ok? ==> (r.Ok? <==> writes && logs))
              && (r.Ok? ==> View() == spec.value && r.value == templates[id])
              && (spec.Ok? ==> templates == if writes then spec.value.templates else old(templates))
              && (spec.Ok? ==> versions == if writes && logs then spec.value.versions else old(versions))
    {
      if id !in templates {
        return Err(NotFound);
      }
      var template := templates[id];
      if template.tenant != tenant {
        return Err(NotFound);
      }
      var version := GetTemplateVersion(v);
      if version.None? {
        return Err(NotFound);
      }
      if version.value.template != id {
        return Err(Validation);
      }
      template := template.(content := version.value.content);
      if isMjml(template.content.body) {
        template := template.(kind := "mjml");
      } else {
        template := template.(kind := "html");
      }
      r := WriteTemplate(template, writes);
      if r.Err? {
        return;
      }
      var logged := CreateTemplateVersion(template.id, template.content, logs);
      if logged.Err? {
        r := Err(Database);
      }
    }
  }

  // ---------- Histories ----------

  function VersionsOf(versions: seq<Version>, t: TemplateId): seq<Version> {
    if versions == [] then []
    else
      var last := versions[|versions| - 1];
      VersionsOf(versions[..|versions| - 1], t) + if last.template == t then [last] else []
  }

  // The newest version of a template has its current content.
  predicate Synced(h: History, t: TemplateId)
    requires t in h.templates
  {
    var log := VersionsOf(h.versions, t);
    log != [] && log[|log| - 1].content == h.templates[t].content
  }

  ghost predicate VersionsKeyed(h: History) {
    && (forall t :: t in h.templates ==> h.templates[t].id == t && t < h.nextId)
    && (forall i :: 0 <= i < |h.versions| ==> h.versions[i].id < h.nextId && h.versions[i].template < h.nextId)
    && (forall i, j :: 0 <= i < j < |h.versions| ==> h.versions[i].id != h.versions[j].id)
  }

  ghost predicate Inv(h: History) {
    VersionsKeyed(h) && forall t :: t in h.templates ==> Synced(h, t)
  }

  lemma LogGrows(versions: seq<Version>, more: Version, t: TemplateId)
    ensures VersionsOf(versions + [more], t) == VersionsOf(versions, t) + if more.template == t then [more] else []
  {
    assert (versions + [more])[..|versions|] == versions;
  }

  lemma {:induction false} OthersKeepLog(versions: seq<Version>, gone: TemplateId, t: TemplateId)
    requires t != gone
    ensures VersionsOf(Others(versions, gone), t) == VersionsOf(versions, t)
  {
    if versions != [] {
      var n := |versions| - 1;
      OthersKeepLog(versions[..n], gone, t);
      if versions[n].template != gone {
        LogGrows(Others(versions[..n], gone), versions[n], t);
      } else {
        assert Others(versions, gone) == Others(versions[..n], gone);
      }
    }
  }

  lemma {:induction false} OthersKeyed(versions: seq<Version>, gone: TemplateId)
    requires forall i, j :: 0 <= i < j < |versions| ==> versions[i].id != versions[j].id
    ensures forall v :: v in Others(versions, gone) ==> v in versions
    ensures forall i, j :: 0 <= i < j < |Others(versions, gone)| ==>
              Others(versions, gone)[i].id != Others(versions, gone)[j].id
  {
    if versions != [] {
      var n := |versions| - 1;
      OthersKeyed(versions[..n], gone);
      var rest := Others(versions[..n], gone);
      forall i | 0 <= i < |rest| ensures rest[i].id != versions[n].id {
        assert rest[i] in versions[..n];
      }
    }
  }

  datatype Call =
    | Create(tenant: TenantId, req: Request)
    | Update(tenant: TenantId, t: TemplateId, req: Request)
    | Restore(tenant: TenantId, t: TemplateId, v: VersionId)
    | Delete(tenant: TenantId, t: TemplateId)

  predicate Step(isMjml: string -> bool, h: History, after: History, call: Call) {
    match call
    case Create(tenant, req) => after == Created(h, tenant, req)
    case Update(tenant, t, req) => Updated(h, tenant, t, req) == Ok(after)
    case Restore(tenant, t, v) => Restored(isMjml, h, tenant, t, v) == Ok(after)
    case Delete(tenant, t) => Deleted(h, tenant, t) == Ok(after)
  }

  // Template t gets new content and a version that records it.
  ghost predicate Writes(h: History, after: History, t: TemplateId, version: Version) {
    && (t in h.templates || t == h.nextId)
    && h.nextId <= version.id < after.nextId && t < after.nextId && version.template == t
    && after.versions == h.versions + [version]
    && after.templates.Keys == h.templates.Keys + {t}
    && (forall u :: u in h.templates && u != t ==> after.templates[u] == h.templates[u])
    && after.templates[t].id == t && after.templates[t].content == version.content
  }

  lemma WriteKeepsInv(h: History, after: History, t: TemplateId, version: Version)
    requires Inv(h) && Writes(h, after, t, version)
    ensures Inv(after)
  {
    WriteKeepsKeyed(h, after, t, version);
    forall u | u in after.templates ensures Synced(after, u) {
      WriteKeepsSynced(h, after, t, version, u);
    }
  }

  lemma WriteKeepsKeyed(h: History, after: History, t: TemplateId, version: Version)
    requires VersionsKeyed(h) && Writes(h, after, t, version)
    ensures VersionsKeyed(after)
  {
  }

  lemma WriteKeepsSynced(h: History, after: History, t: TemplateId, version: Version, u: TemplateId)
    requires Writes(h, after, t, version) && u in after.templates && (u != t ==> Synced(h, u))
    ensures Synced(after, u)
  {
    LogGrows(h.versions, version, u);
  }

  lemma DeleteKeepsInv(h: History, after: History, tenant: TenantId, t: TemplateId)
    requires Inv(h) && Deleted(h, tenant, t) == Ok(after)
    ensures Inv(after)
  {
    OthersKeyed(h.versions, t);
    forall i | 0 <= i < |after.versions|
      ensures after.versions[i].id < h.nextId && after.versions[i].template < h.nextId
    {
      assert after.versions[i] in h.versions;
    }
    forall u | u in after.templates ensures Synced(after, u) {
      OthersKeepLog(h.versions, t, u);
      assert Synced(h, u);
    }
  }

  lemma StepKeepsInv(isMjml: string -> bool, h: History, after: History, call: Call)
    requires Inv(h) && Step(isMjml, h, after, call)
    ensures Inv(after)
  {
    match call
    case Create(tenant, req) => WriteKeepsInv(h, after, h.nextId, after.versions[|h.versions|]);
    case Update(tenant, t, req) => WriteKeepsInv(h, after, t, after.versions[|h.versions|]);
    case Restore(tenant, t, v) => WriteKeepsInv(h, after, t, after.versions[|h.versions|]);
    case Delete(tenant, t) => DeleteKeepsInv(h, after, tenant, t);
  }

  // While a template stays, its log only grows.
  lemma StepGrowsLog(isMjml: string -> bool, h: History, after: History, call: Call, t: TemplateId)
    requires Inv(h) && Step(isMjml, h, after, call) && t in after.templates
    ensures VersionsOf(h.versions, t) <= VersionsOf(after.versions, t)
  {
    match call
    case Delete(tenant, gone) => OthersKeepLog(h.versions, gone, t);
    case _ => LogGrows(h.versions, after.versions[|h.versions|], t);
  }

  ghost predicate Run(isMjml: string -> bool, run: seq<History>, calls: seq<Call>) {
    Trace(StepOf(isMjml), run, calls) && run[0] == History(map[], [], 0)
  }

  ghost function StepOf(isMjml: string -> bool): (History, History, Call) -> bool {
    (h: History, after: History, call: Call) => Step(isMjml, h, after, call)
  }

  lemma StepsKeepInv(isMjml: string -> bool)
    ensures Keeps(Inv, StepOf(isMjml))
  {
    forall h, after, call | Inv(h) && StepOf(isMjml)(h, after, call) ensures Inv(after) {
      StepKeepsInv(isMjml, h, after, call);
    }
  }

  lemma RunKeepsInv(isMjml: string -> bool, run: seq<History>, calls: seq<Call>, n: nat)
    requires Run(isMjml, run, calls) && n < |run|
    ensures Inv(run[n])
  {
    StepsKeepInv(isMjml);
    Invariant(Inv, StepOf(isMjml), run, calls, n);
  }

  // A deleted template does not come back.
  lemma {:induction false} StaysInBetween(isMjml: string -> bool, run: seq<History>, calls: seq<Call>, m: nat,
      n: nat, t: TemplateId)
    requires Run(isMjml, run, calls) && m <= n < |run| && t in run[m].templates && t in run[n].templates
    ensures VersionsOf(run[m].versions, t) <= VersionsOf(run[n].versions, t)
    decreases n - m
  {
    if m < n {
      RunKeepsInv(isMjml, run, calls, n - 1);
      NextIdGrows(isMjml, run, calls, m, n - 1);
      RunKeepsInv(isMjml, run, calls, m);
      assert StepOf(isMjml)(run[n - 1], run[n], calls[n - 1]);
      StaysInBetween(isMjml, run, calls, m, n - 1, t);
      StepGrowsLog(isMjml, run[n - 1], run[n], calls[n - 1], t);
    }
  }

  lemma {:induction false} NextIdGrows(isMjml: string -> bool, run: seq<History>, calls: seq<Call>, m: nat, n: nat)
    requires Run(isMjml, run, calls) && m <= n < |run|
    ensures run[m].nextId <= run[n].nextId
    decreases n - m
  {
    if m < n {
      NextIdGrows(isMjml, run, calls, m, n - 1);
      assert StepOf(isMjml)(run[n - 1], run[n], calls[n - 1]);
    }
  }

  lemma {:induction false} FoundVersion(versions: seq<Version>, v: Version)
    requires v in versions && forall i, j :: 0 <= i < j < |versions| ==> versions[i].id != versions[j].id
    ensures FindVersion(versions, v.id) == Some(v)
  {
    if versions[0] != v {
      assert versions == [versions[0]] + versions[1..];
      FoundVersion(versions[1..], v);
    }
  }

  lemma {:induction false} OfLog(versions: seq<Version>, t: TemplateId)
    ensures forall v :: v in VersionsOf(versions, t) <==> v in versions && v.template == t
  {
    if versions != [] {
      var n := |versions| - 1;
      OfLog(versions[..n], t);
      assert versions == versions[..n] + [versions[n]];
    }
  }

  // In every history: the newest version is the current content, no recorded
  // version of a template is lost while the template stays, and restoring one
  // gives back exactly what was recorded.
  lemma HistoryKept(isMjml: string -> bool, run: seq<History>, calls: seq<Call>, m: nat, n: nat, t: TemplateId,
      v: Version)
    requires Run(isMjml, run, calls) && m <= n < |run| && t in run[m].templates && t in run[n].templates
    requires v in run[m].versions && v.template == t
    ensures Synced(run[n], t)
    ensures VersionsOf(run[m].versions, t) <= VersionsOf(run[n].versions, t)
    ensures var r := Restored(isMjml, run[n], run[n].templates[t].tenant, t, v.id);
            && r.Ok? && r.value.templates[t].content == v.content
            && r.value.versions == run[n].versions + [Version(run[n].nextId, t, v.content)]
  {
    RunKeepsInv(isMjml, run, calls, n);
    StaysInBetween(isMjml, run, calls, m, n, t);
    OfLog(run[m].versions, t);
    OfLog(run[n].versions, t);
    assert v in VersionsOf(run[m].versions, t);
    FoundVersion(run[n].versions, v);
  }

  // ---------- When a write fails ----------

  // An update that logs its version and then fails leaves the newest version
  // equal to the content exactly when the update changed no content; the same
  // holds for a restore that fails to log.
  lemma HalfAnUpdate(h: History, tenant: TenantId, t: TemplateId, req: Request)
    requires Inv(h) && Updated(h, tenant, t, req).Ok?
    ensures Synced(h.(versions := Updated(h, tenant, t, req).value.versions), t) <==>
              req.content == h.templates[t].content
  {
    LogGrows(h.versions, Version(h.nextId, t, req.content), t);
  }

  lemma HalfARestore(isMjml: string -> bool, h: History, tenant: TenantId, t: TemplateId, v: VersionId)
    requires Inv(h) && Restored(isMjml, h, tenant, t, v).Ok?
    ensures var after := Restored(isMjml, h, tenant, t, v).value;
            Synced(h.(templates := after.templates), t) <==> after.templates[t].content == h.templates[t].content
  {
    assert Synced(h, t);
  }
}
