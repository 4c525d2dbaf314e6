/** The GitHub client as it runs: one API call after another against a repository
    that other clients write to in between, and whose calls may fail. */
module GitClient {
  import opened Paths
  import opened GitObjects
  import opened CommitProtocol

  /** A write some other client sends. */
  datatype Request = PushOf(branch: string, commit: Commit) | BranchAt(branch: string, commit: Commit)

  /** What happens around one of our API calls: the requests that get in before it, whether it fails before it takes
      effect, and whether its reply is lost afterwards. */
  datatype Turn = Turn(foreign: seq<Request>, fault: bool, lost: bool)

  function Serve(heads: Refs, request: Request): Refs {
    match request
    case PushOf(branch, commit) => UpdateRef(heads, branch, commit)
    case BranchAt(branch, commit) => CreateRef(heads, branch, commit)
  }

  function ServeAll(heads: Refs, requests: seq<Request>): Refs
    decreases |requests|
  {
    if requests == [] then heads else ServeAll(Serve(heads, requests[0]), requests[1..])
  }

  /** Every branch is still there, at a descendant of where it was. */
  ghost predicate Advanced(before: Refs, after: Refs) {
    forall branch | branch in before :: branch in after && Ancestor(before[branch], after[branch])
  }

  lemma AdvancedTransitive(a: Refs, b: Refs, c: Refs)
    requires Advanced(a, b) && Advanced(b, c)
    ensures Advanced(a, c)
  {
    forall branch | branch in a ensures branch in c && Ancestor(a[branch], c[branch]) {
      AncestorTransitive(a[branch], b[branch], c[branch]);
    }
  }

  lemma {:induction false} ServeAllAdvances(heads: Refs, requests: seq<Request>)
    ensures Advanced(heads, ServeAll(heads, requests))
    decreases |requests|
  {
    if requests != [] {
      var next := Serve(heads, requests[0]);
      ServeAllAdvances(next, requests[1..]);
      AdvancedTransitive(heads, next, ServeAll(next, requests[1..]));
    }
  }

  // ----- How much others get in the way -----

  /** Nothing fails from here on. */
  ghost predicate Smooth(script: seq<Turn>) {
    forall i | 0 <= i < |script| :: !script[i].fault && !script[i].lost
  }

  /** Somebody else pushes to the branch in this turn. */
  predicate Pushes(turn: Turn, branch: string) {
    exists request | request in turn.foreign :: request.PushOf? && request.branch == branch
  }

  /** In how many turns somebody else pushes to the branch. */
  function Rivals(script: seq<Turn>, branch: string): nat {
    if script == [] then 0 else (if Pushes(script[0], branch) then 1 else 0) + Rivals(script[1..], branch)
  }

  /** No branch moved but in a turn in which somebody pushed to it. */
  ghost predicate Undisturbed(heads: Refs, script: seq<Turn>, heads': Refs, script': seq<Turn>) {
    && (forall branch :: Rivals(script', branch) <= Rivals(script, branch))
    && (forall branch | branch in heads ::
          branch in heads' && (heads'[branch] == heads[branch] || Rivals(script', branch) < Rivals(script, branch)))
  }

  /** script' is what is left of script. */
  predicate Rest(script: seq<Turn>, script': seq<Turn>) {
    |script'| <= |script| && script' == script[|script| - |script'|..]
  }

  /** Every call made in between was answered. */
  ghost predicate Answered(script: seq<Turn>, script': seq<Turn>) {
    Rest(script, script') && Smooth(script[..|script| - |script'|])
  }

  /** What may have happened since: at most n turns are used up, in which others have moved no branch back, and none at all
      but by a push; ok says whether all calls were answered. */
  ghost predicate Elapsed(heads: Refs, script: seq<Turn>, heads': Refs, script': seq<Turn>, n: nat, ok: bool) {
    && Advanced(heads, heads') && Undisturbed(heads, script, heads', script')
    && Rest(script, script') && |script'| + n >= |script| && (ok <==> Answered(script, script'))
  }

  /** The same of our own attempts on a branch, so many of which were refused because somebody else had pushed to it. */
  ghost predicate Tried(heads: Refs, script: seq<Turn>, heads': Refs, script': seq<Turn>, branch: string, refused: nat, n: nat, ok: bool) {
    && Advanced(heads, heads')
    && Rest(script, script') && |script'| + n >= |script| && (ok <==> Answered(script, script'))
    && Rivals(script', branch) + refused <= Rivals(script, branch)
  }

  lemma UndisturbedTransitive(h0: Refs, s0: seq<Turn>, h1: Refs, s1: seq<Turn>, h2: Refs, s2: seq<Turn>)
    requires Undisturbed(h0, s0, h1, s1) && Undisturbed(h1, s1, h2, s2)
    ensures Undisturbed(h0, s0, h2, s2)
  {
    hide Rivals;
    forall branch ensures Rivals(s2, branch) <= Rivals(s0, branch) { assert Rivals(s2, branch) <= Rivals(s1, branch) <= Rivals(s0, branch); }
    forall branch | branch in h0
      ensures branch in h2 && (h2[branch] == h0[branch] || Rivals(s2, branch) < Rivals(s0, branch))
    {
      assert branch in h1;
    }
  }

  lemma AnsweredOn(s0: seq<Turn>, s1: seq<Turn>, s2: seq<Turn>)
    requires Rest(s0, s1) && Rest(s1, s2)
    ensures Rest(s0, s2) && (Answered(s0, s2) <==> Answered(s0, s1) && Answered(s1, s2))
  {
    var n, m := |s0| - |s1|, |s1| - |s2|;
    assert s0[n..][m..] == s0[n + m..];
    var early, late := s0[..n], s1[..m];
    assert s0[..n + m] == early + late;
    if Smooth(early + late) {
      assert forall i | 0 <= i < n :: early[i] == (early + late)[i];
      assert forall i | 0 <= i < m :: late[i] == (early + late)[n + i];
    }
  }

  lemma ElapsedOn(h0: Refs, s0: seq<Turn>, h1: Refs, s1: seq<Turn>, n: nat, h2: Refs, s2: seq<Turn>, m: nat, ok: bool)
    requires Elapsed(h0, s0, h1, s1, n, true) && Elapsed(h1, s1, h2, s2, m, ok)
    ensures Elapsed(h0, s0, h2, s2, n + m, ok)
  {
    AdvancedTransitive(h0, h1, h2);
    UndisturbedTransitive(h0, s0, h1, s1, h2, s2);
    AnsweredOn(s0, s1, s2);
    hide Advanced, Undisturbed, Answered;
  }

  lemma TriedOn(h0: Refs, s0: seq<Turn>, h1: Refs, s1: seq<Turn>, branch: string, refused: nat, n: nat,
                h2: Refs, s2: seq<Turn>, again: nat, m: nat, ok: bool)
    requires Tried(h0, s0, h1, s1, branch, refused, n, true) && Tried(h1, s1, h2, s2, branch, again, m, ok)
    ensures Tried(h0, s0, h2, s2, branch, refused + again, n + m, ok)
  {
    AdvancedTransitive(h0, h1, h2);
    AnsweredOn(s0, s1, s2);
    hide Advanced, Answered, Rivals;
  }

  lemma Longer(h0: Refs, s0: seq<Turn>, h1: Refs, s1: seq<Turn>, n: nat, ok: bool, m: nat)
    requires Elapsed(h0, s0, h1, s1, n, ok) && n <= m
    ensures Elapsed(h0, s0, h1, s1, m, ok)
  {
    hide Advanced, Undisturbed, Answered;
  }

  lemma NoTime(heads: Refs, script: seq<Turn>)
    ensures Elapsed(heads, script, heads, script, 0, true)
  {
    assert script[0..] == script;
  }

  /** A branch that has not stayed where it was cost a rival's push. */
  lemma ElapsedTried(h0: Refs, s0: seq<Turn>, h1: Refs, s1: seq<Turn>, branch: string, n: nat, ok: bool, m: nat)
    requires Elapsed(h0, s0, h1, s1, n, ok) && n <= m
    ensures Tried(h0, s0, h1, s1, branch, 0, m, ok)
    ensures branch in h0 ==> branch in h1 && Ancestor(h0[branch], h1[branch])
    ensures branch in h0 && h1[branch] != h0[branch] ==> Tried(h0, s0, h1, s1, branch, 1, m, ok)
  {
    hide Rivals, Answered;
  }

  lemma TriedLess(h0: Refs, s0: seq<Turn>, h1: Refs, s1: seq<Turn>, branch: string, refused: nat, n: nat, ok: bool, less: nat, m: nat)
    requires Tried(h0, s0, h1, s1, branch, refused, n, ok) && less <= refused && n <= m
    ensures Tried(h0, s0, h1, s1, branch, less, m, ok)
  {
  }

  /** Requests that push to other branches leave this one alone. */
  lemma {:induction false} ServedElsewhere(heads: Refs, requests: seq<Request>, branch: string)
    requires branch in heads && forall request | request in requests :: !(request.PushOf? && request.branch == branch)
    ensures branch in ServeAll(heads, requests) && ServeAll(heads, requests)[branch] == heads[branch]
    decreases |requests|
  {
    if requests != [] {
      assert requests[0] in requests;
      ServedElsewhere(Serve(heads, requests[0]), requests[1..], branch);
    }
  }

  lemma TurnPlayed(heads: Refs, script: seq<Turn>)
    requires script != []
    ensures Elapsed(heads, script, ServeAll(heads, script[0].foreign), script[1..], 1, !script[0].fault && !script[0].lost)
  {
    forall branch | branch in heads && !Pushes(script[0], branch)
      ensures branch in ServeAll(heads, script[0].foreign) && ServeAll(heads, script[0].foreign)[branch] == heads[branch]
    {
      ServedElsewhere(heads, script[0].foreign, branch);
    }
    ServeAllAdvances(heads, script[0].foreign);
    hide ServeAll, Pushes;
  }

  class Repository {
    var heads: Refs
    /** The turns still to come; after the last one nobody interferes and nothing fails. */
    var script: seq<Turn>

    constructor (heads: Refs, script: seq<Turn>)
      ensures this.heads == heads && this.script == script
    {
      this.heads := heads;
      this.script := script;
    }

    /** Plays the next turn; every API call starts with it. */
    method Await() returns (fault: bool, lost: bool)
      modifies this
      ensures Elapsed(old(heads), old(script), heads, script, 1, !fault && !lost)
      ensures old(script) == [] ==> !fault && !lost && heads == old(heads) && script == []
      ensures old(script) != [] ==>
                heads == ServeAll(old(heads), old(script)[0].foreign) && script == old(script)[1..]
                && fault == old(script)[0].fault && lost == old(script)[0].lost
    {
      if script == [] {
        NoTime(heads, script);
        return false, false;
      }
      TurnPlayed(heads, script);
      heads := ServeAll(heads, script[0].foreign);
      fault, lost := script[0].fault, script[0].lost;
      script := script[1..];
    }
  }

  datatype Reply<T> = Ok(value: T) | NotFound | Conflict | Fault

  method GetRef(hub: Repository, branch: string) returns (reply: Reply<Commit>)
    modifies hub
    ensures Elapsed(old(hub.heads), old(hub.script), hub.heads, hub.script, 1, !reply.Fault?)
    ensures reply.Ok? ==> branch in hub.heads && reply.value == hub.heads[branch]
    ensures reply.NotFound? ==> branch !in hub.heads
    ensures !reply.Conflict?
    ensures old(hub.script) == [] ==> !reply.Fault? && hub.heads == old(hub.heads) && hub.script == []
  {
    var fault, lost := hub.Await();
    if fault || lost { return Fault; }
    reply := if branch in hub.heads then Ok(hub.heads[branch]) else NotFound;
  }

  /** A call that only adds an immutable object. */
  method AddObject(hub: Repository) returns (ok: bool)
    modifies hub
    ensures Elapsed(old(hub.heads), old(hub.script), hub.heads, hub.script, 1, ok)
    ensures old(hub.script) == [] ==> ok && hub.heads == old(hub.heads) && hub.script == []
  {
    var fault, lost := hub.Await();
    ok := !fault && !lost;
  }

  /** The reply does not say whether a failed call took effect. */
  method SendUpdateRef(hub: Repository, branch: string, commit: Commit) returns (reply: Reply<()>)
    modifies hub
    ensures Tried(old(hub.heads), old(hub.script), hub.heads, hub.script, branch,
                  if reply.Conflict? && FastForwards(old(hub.heads), branch, commit) then 1 else 0, 1, !reply.Fault?)
    ensures reply.Ok? ==> branch in hub.heads && hub.heads[branch] == commit
    ensures !reply.NotFound?
    ensures old(hub.script) == [] ==>
              hub.script == [] && hub.heads == UpdateRef(old(hub.heads), branch, commit)
              && reply == if FastForwards(old(hub.heads), branch, commit) then Ok(()) else Conflict
  {
    ghost var h0, s0 := hub.heads, hub.script;
    var fault, lost := hub.Await();
    ghost var h1 := hub.heads;
    ElapsedTried(h0, s0, h1, hub.script, branch, 1, !fault && !lost, 1);
    if fault { return Fault; }
    var accepted := FastForwards(hub.heads, branch, commit);
    hub.heads := UpdateRef(hub.heads, branch, commit);
    AdvancedTransitive(h0, h1, hub.heads);
    reply := if lost then Fault else if accepted then Ok(()) else Conflict;
  }

  method SendCreateRef(hub: Repository, branch: string, commit: Commit) returns (reply: Reply<()>)
    modifies hub
    ensures Elapsed(old(hub.heads), old(hub.script), hub.heads, hub.script, 1, !reply.Fault?)
    ensures reply.Ok? || reply.Conflict? ==> branch in hub.heads
    ensures !reply.NotFound?
    ensures old(hub.script) == [] ==>
              hub.script == [] && hub.heads == CreateRef(old(hub.heads), branch, commit)
              && reply == if branch in old(hub.heads) then Conflict else Ok(())
  {
    ghost var h0, s0 := hub.heads, hub.script;
    var fault, lost := hub.Await();
    if fault { return Fault; }
    var taken := branch in hub.heads;
    ghost var h1 := hub.heads;
    hub.heads := CreateRef(hub.heads, branch, commit);
    AdvancedTransitive(h0, h1, hub.heads);
    reply := if lost then Fault else if taken then Conflict else Ok(());
  }

  method EnsureBranch(hub: Repository, branch: string, date: int) returns (ok: bool)
    modifies hub
    ensures Elapsed(old(hub.heads), old(hub.script), hub.heads, hub.script, 3, ok)
    ensures ok ==> branch in hub.heads
    ensures old(hub.script) == [] ==>
              ok && hub.script == [] && hub.heads == CreateRef(old(hub.heads), branch, Orphan(branch, date))
  {
    hide Elapsed;
    ghost var h0, s0 := hub.heads, hub.script;
    var found := GetRef(hub, branch);
    ghost var h1, s1 := hub.heads, hub.script;
    Longer(h0, s0, h1, s1, 1, !found.Fault?, 3);
    if found.Ok? { return true; }
    if !found.NotFound? { return false; }
    var root := Orphan(branch, date);
    ok := AddObject(hub);
    ghost var h2, s2 := hub.heads, hub.script;
    ElapsedOn(h0, s0, h1, s1, 1, h2, s2, 1, ok);
    Longer(h0, s0, h2, s2, 2, ok, 3);
    if !ok { return; }
    var created := SendCreateRef(hub, branch, root);
    ok := created.Ok? || created.Conflict?;
    ElapsedOn(h0, s0, h2, s2, 2, hub.heads, hub.script, 1, ok);
  }

  /** The files already turned into entries, whatever order the map handed them out in. */
  function Only(files: FileMap, keys: set<string>): FileMap {
    map rel | rel in files && rel in keys :: files[rel]
  }

  lemma {:induction false} CreateTreeSnoc(base: Tree, entries: seq<(string, string)>, p: string, content: string)
    ensures CreateTree(base, entries + [(p, content)]) == CreateTree(base, entries)[p := content]
    decreases |entries|
  {
    if entries == [] {
      assert entries + [(p, content)] == [(p, content)];
    } else {
      assert (entries + [(p, content)])[1..] == entries[1..] + [(p, content)];
      CreateTreeSnoc(base[entries[0].0 := entries[0].1], entries[1..], p, content);
    }
  }

  /** One more file processed is one more file stored. */
  lemma OverlayOneMore(base: Tree, dir: string, files: FileMap, done: set<string>, rel: string)
    requires rel in files && rel !in done
    ensures Overlay(base, dir, Only(files, done + {rel})) == Overlay(base, dir, Only(files, done))[dir + "/" + rel := files[rel]]
  {
    var left := Overlay(base, dir, Only(files, done + {rel}));
    var right := Overlay(base, dir, Only(files, done))[dir + "/" + rel := files[rel]];
    forall p ensures Alike(left, right, p) {
      OverlayOneMoreAt(base, dir, files, done, rel, p);
    }
    AlikeEverywhere(left, right);
  }

  ghost predicate Alike(left: Tree, right: Tree, p: string) {
    (p in left <==> p in right) && (p in left ==> left[p] == right[p])
  }

  lemma AlikeEverywhere(left: Tree, right: Tree)
    requires forall p :: Alike(left, right, p)
    ensures left == right
  {
    forall p ensures (p in left <==> p in right) && (p in left ==> left[p] == right[p]) {
      assert Alike(left, right, p);
    }
    assert left.Keys == right.Keys;
  }

  lemma OverlayOneMoreAt(base: Tree, dir: string, files: FileMap, done: set<string>, rel: string, p: string)
    requires rel in files && rel !in done
    ensures Alike(Overlay(base, dir, Only(files, done + {rel})), Overlay(base, dir, Only(files, done))[dir + "/" + rel := files[rel]], p)
  {
    if Under(dir, p) {
      var name := p[|dir| + 1..];
      assert p == dir + "/" + name;
      OverlayAt(base, dir, Only(files, done + {rel}), name);
      OverlayAt(base, dir, Only(files, done), name);
      assert name == rel <==> dir + "/" + name == dir + "/" + rel by {
        assert (dir + "/" + rel)[|dir| + 1..] == rel;
      }
    } else {
      OverlayOutside(base, dir, Only(files, done + {rel}), p);
      OverlayOutside(base, dir, Only(files, done), p);
      assert Under(dir, dir + "/" + rel);
    }
  }

  /** The entries cover exactly the files no longer to do. */
  ghost predicate Listed(base: Tree, dir: string, files: FileMap, entries: seq<(string, string)>, todo: set<string>) {
    Canonical(dir) && CanonicalFiles(files) ==>
      CreateTree(base, entries) == Overlay(base, dir, Only(files, files.Keys - todo))
  }

  lemma EntryAdded(base: Tree, dir: string, files: FileMap, entries: seq<(string, string)>, todo: set<string>, rel: string)
    requires Listed(base, dir, files, entries, todo) && todo <= files.Keys && rel in todo
    ensures Listed(base, dir, files, entries + [(Join(dir, rel), files[rel])], todo - {rel})
  {
    if Canonical(dir) && CanonicalFiles(files) {
      CanonicalJoin(dir, rel);
      CreateTreeSnoc(base, entries, dir + "/" + rel, files[rel]);
      OverlayOneMore(base, dir, files, files.Keys - todo, rel);
      assert files.Keys - todo + {rel} == files.Keys - (todo - {rel});
    }
  }

  /** Uploads every file and lists where each goes. */
  method BuildEntries(hub: Repository, base: Tree, treePath: string, files: FileMap)
    returns (ok: bool, entries: seq<(string, string)>)
    modifies hub
    ensures Elapsed(old(hub.heads), old(hub.script), hub.heads, hub.script, |files|, ok)
    ensures ok && Canonical(treePath) && CanonicalFiles(files) ==> CreateTree(base, entries) == Overlay(base, treePath, files)
    ensures old(hub.script) == [] ==> ok && hub.heads == old(hub.heads) && hub.script == []
  {
    hide Elapsed, Listed;
    entries := [];
    var todo := files.Keys;
    ghost var h0, s0 := hub.heads, hub.script;
    NoneListed(base, treePath, files);
    NoTime(h0, s0);
    while todo != {}
      invariant todo <= files.Keys && |todo| <= |files.Keys|
      invariant Elapsed(h0, s0, hub.heads, hub.script, |files.Keys| - |todo|, true)
      invariant Listed(base, treePath, files, entries, todo)
      invariant s0 == [] ==> hub.heads == h0 && hub.script == []
      decreases todo
    {
      var rel :| rel in todo;
      ghost var h1, s1 := hub.heads, hub.script;
      ghost var done := |files.Keys| - |todo|;
      FewerLeft(files.Keys, todo, rel);
      ok := AddObject(hub);
      ElapsedOn(h0, s0, h1, s1, done, hub.heads, hub.script, 1, ok);
      Longer(h0, s0, hub.heads, hub.script, done + 1, ok, |files|);
      if !ok { return; }
      EntryAdded(base, treePath, files, entries, todo, rel);
      entries := entries + [(Join(treePath, rel), files[rel])];
      todo := todo - {rel};
    }
    AllListed(base, treePath, files, entries);
    ok := true;
  }

  lemma NoneListed(base: Tree, dir: string, files: FileMap)
    ensures Listed(base, dir, files, [], files.Keys)
  {
    assert Only(files, files.Keys - files.Keys) == map[];
    assert Overlay(base, dir, map[]) == base;
  }

  lemma AllListed(base: Tree, dir: string, files: FileMap, entries: seq<(string, string)>)
    requires Listed(base, dir, files, entries, {})
    ensures Canonical(dir) && CanonicalFiles(files) ==> CreateTree(base, entries) == Overlay(base, dir, files)
  {
    assert Only(files, files.Keys - {}) == files;
  }

  lemma {:induction false} FewerLeft(all: set<string>, todo: set<string>, rel: string)
    requires todo <= all && rel in todo
    ensures 0 < |todo| <= |all| && |todo - {rel}| == |todo| - 1 < |all|
  {
    assert all == todo + (all - todo);
  }

  datatype Attempt = Success(commit: Commit) | Clash | Error

  /** What a call may return: a commit in the branch's history that holds the files
      and changed nothing but them on top of its parent. */
  ghost predicate Delivered(heads: Refs, call: Call, commit: Commit) {
    && call.branch in heads
    && Ancestor(commit, heads[call.branch])
    && (Canonical(call.treePath) && CanonicalFiles(call.files) ==>
          && Holds(commit.tree, call.treePath, call.files)
          && (Stored(call, commit) == commit.tree))
  }

  lemma DeliveredStays(before: Refs, after: Refs, call: Call, commit: Commit)
    requires Delivered(before, call, commit) && Advanced(before, after)
    ensures Delivered(after, call, commit)
  {
    AncestorTransitive(commit, before[call.branch], after[call.branch]);
  }

  /** What an attempt that nobody disturbs makes of the tip. */
  function Made(call: Call, tip: Commit, date: int): Commit {
    if Stored(call, tip) == tip.tree then tip else NewCommit(call, tip, date)
  }

  method CommitOnce(hub: Repository, call: Call, date: int) returns (r: Attempt)
    modifies hub
    ensures Advanced(old(hub.heads), hub.heads)
    ensures r.Success? ==> Delivered(hub.heads, call, r.commit)
    ensures call.branch in old(hub.heads) ==>
              Tried(old(hub.heads), old(hub.script), hub.heads, hub.script, call.branch,
                    if r.Clash? then 1 else 0, 5 + |call.files|, !r.Error?)
    ensures old(hub.script) == [] && call.branch in old(hub.heads) && Canonical(call.treePath) && CanonicalFiles(call.files) ==>
              && hub.script == []
              && r == Success(Made(call, old(hub.heads)[call.branch], date))
              && hub.heads == old(hub.heads)[call.branch := r.commit]
  {
    hide Elapsed, Tried, Stored, Canonical, CanonicalFiles, Advanced, Delivered, FastForwards, Ancestor;
    ghost var h0, s0, n := hub.heads, hub.script, |call.files|;
    var b := call.branch;
    var tipReply := GetRef(hub, b);
    ghost var h1, s1 := hub.heads, hub.script;
    Since(h0, s0, h1, s1, 1, !tipReply.Fault?, call);
    if !tipReply.Ok? { return Error; }
    var parent := tipReply.value;
    var ok, tree := StageTree(hub, call, parent);
    ghost var h2, s2 := hub.heads, hub.script;
    ElapsedOn(h0, s0, h1, s1, 1, h2, s2, 2 + n, ok);
    Since(h0, s0, h2, s2, 3 + n, ok, call);
    if !ok { return Error; }
    if tree == parent.tree {
      ElapsedTried(h1, s1, h2, s2, b, 2 + n, ok, 2 + n);
      FoundStored(h2, call, parent);
      return Success(parent);
    }
    ok := AddObject(hub);
    ghost var h3, s3 := hub.heads, hub.script;
    ElapsedOn(h1, s1, h2, s2, 2 + n, h3, s3, 1, ok);
    ElapsedOn(h0, s0, h1, s1, 1, h3, s3, 3 + n, ok);
    Since(h0, s0, h3, s3, 4 + n, ok, call);
    if !ok { return Error; }
    var commit := Child(parent, tree, call.message, date);
    var pushed := SendUpdateRef(hub, b, commit);
    RefusedByRivals(h0, s0, h1, s1, h3, s3, hub.heads, hub.script, b, commit, n, pushed);
    if pushed.Ok? { NewlyStored(hub.heads, call, commit); }
    if h3 == h1 { StraightOn(h3, b, commit); }
    r := if pushed.Ok? then Success(commit) else if pushed.Conflict? then Clash else Error;
  }

  lemma FoundStored(heads: Refs, call: Call, commit: Commit)
    requires call.branch in heads && Ancestor(commit, heads[call.branch])
    requires Canonical(call.treePath) && CanonicalFiles(call.files) ==> Stored(call, commit) == commit.tree
    ensures Delivered(heads, call, commit)
  {
    HoldsIffUnchanged(commit.tree, call.treePath, call.files);
  }

  lemma NewlyStored(heads: Refs, call: Call, commit: Commit)
    requires call.branch in heads && commit == heads[call.branch] && commit.Child?
    requires Canonical(call.treePath) && CanonicalFiles(call.files) ==> commit.tree == Stored(call, commit.parent)
    ensures Delivered(heads, call, commit)
  {
    OverlayHolds(commit.parent.tree, call.treePath, call.files);
    OverlayIdempotent(commit.parent.tree, call.treePath, call.files);
  }

  /** What the contract says when the attempt ends here. */
  lemma Since(h0: Refs, s0: seq<Turn>, h1: Refs, s1: seq<Turn>, n: nat, ok: bool, call: Call)
    requires Elapsed(h0, s0, h1, s1, n, ok) && n <= 5 + |call.files|
    ensures Advanced(h0, h1) && Tried(h0, s0, h1, s1, call.branch, 0, 5 + |call.files|, ok)
    ensures call.branch in h0 ==> call.branch in h1
  {
    ElapsedTried(h0, s0, h1, s1, call.branch, n, ok, 5 + |call.files|);
  }

  /** A push of a commit made on the tip is refused only when somebody has pushed since the tip was read. */
  lemma RefusedByRivals(h0: Refs, s0: seq<Turn>, h1: Refs, s1: seq<Turn>, h3: Refs, s3: seq<Turn>, h4: Refs, s4: seq<Turn>,
                        b: string, commit: Commit, n: nat, pushed: Reply<()>)
    requires Elapsed(h0, s0, h1, s1, 1, true) && Elapsed(h1, s1, h3, s3, 3 + n, true)
    requires b in h1 && commit.Child? && commit.parent == h1[b]
    requires Tried(h3, s3, h4, s4, b, if pushed.Conflict? && FastForwards(h3, b, commit) then 1 else 0, 1, !pushed.Fault?)
    ensures Tried(h0, s0, h4, s4, b, if pushed.Conflict? then 1 else 0, 5 + n, !pushed.Fault?)
    ensures Advanced(h0, h4)
  {
    ElapsedTried(h0, s0, h1, s1, b, 1, true, 1);
    ElapsedTried(h1, s1, h3, s3, b, 3 + n, true, 3 + n);
    hide Elapsed;
    var moved := if h3[b] != h1[b] then 1 else 0;
    var refused := if pushed.Conflict? && FastForwards(h3, b, commit) then 1 else 0;
    assert Ancestor(h1[b], commit);
    hide Tried, FastForwards;
    TriedOn(h0, s0, h1, s1, b, 0, 1, h3, s3, moved, 3 + n, true);
    TriedOn(h0, s0, h3, s3, b, moved, 4 + n, h4, s4, refused, 1, !pushed.Fault?);
    StraightOn(h3, b, commit);
    assert pushed.Conflict? ==> moved + refused >= 1;
    TriedLess(h0, s0, h4, s4, b, moved + refused, 5 + n, !pushed.Fault?, if pushed.Conflict? then 1 else 0, 5 + n);
    assert Advanced(h0, h4) by { TriedAdvances(h0, s0, h4, s4, b, moved + refused, 5 + n, !pushed.Fault?); }
  }

  lemma StraightOn(heads: Refs, b: string, commit: Commit)
    requires b in heads && commit.Child?
    ensures commit.parent == heads[b] ==> FastForwards(heads, b, commit)
  {
  }

  lemma TriedAdvances(h0: Refs, s0: seq<Turn>, h1: Refs, s1: seq<Turn>, b: string, refused: nat, n: nat, ok: bool)
    requires Tried(h0, s0, h1, s1, b, refused, n, ok)
    ensures Advanced(h0, h1) && (b in h0 ==> b in h1)
  {
  }

  /** Reads the parent commit, uploads the files and creates the tree. */
  method StageTree(hub: Repository, call: Call, parent: Commit) returns (ok: bool, tree: Tree)
    modifies hub
    ensures Elapsed(old(hub.heads), old(hub.script), hub.heads, hub.script, 2 + |call.files|, ok)
    ensures ok && Canonical(call.treePath) && CanonicalFiles(call.files) ==> tree == Stored(call, parent)
    ensures old(hub.script) == [] ==> ok && hub.heads == old(hub.heads) && hub.script == []
  {
    hide Elapsed, Overlay, Canonical, CanonicalFiles;
    tree := parent.tree;
    ghost var h0, s0, n := hub.heads, hub.script, |call.files|;
    ok := AddObject(hub);                  // reading the parent commit can only fail
    ghost var h1, s1 := hub.heads, hub.script;
    Longer(h0, s0, h1, s1, 1, ok, 2 + n);
    if !ok { return; }
    var entries;
    ok, entries := BuildEntries(hub, parent.tree, call.treePath, call.files);
    ghost var h2, s2 := hub.heads, hub.script;
    ElapsedOn(h0, s0, h1, s1, 1, h2, s2, n, ok);
    Longer(h0, s0, h2, s2, 1 + n, ok, 2 + n);
    if !ok { return; }
    ok := AddObject(hub);
    ElapsedOn(h0, s0, h2, s2, 1 + n, hub.heads, hub.script, 1, ok);
    tree := CreateTree(parent.tree, entries);
  }

  /** Whatever others do in between, a commit the client returns is in the branch for good and holds every file; it gives
      up only when a call is not answered or its push is refused three times, each time because somebody else has pushed to
      the branch in the meantime; left alone, the call is one atomic step on the branch. */
  method Commit(hub: Repository, call: Call, date: int) returns (r: Outcome)
    modifies hub
    ensures Advanced(old(hub.heads), hub.heads)
    ensures r.Returned? ==> Delivered(hub.heads, call, r.commit)
    ensures r.Returned? ==> Answered(old(hub.script), hub.script)
    ensures r.Failed? && Answered(old(hub.script), hub.script) ==>
              Rivals(old(hub.script), call.branch) - Rivals(hub.script, call.branch) >= 3
    ensures Rest(old(hub.script), hub.script) && |old(hub.script)| - |hub.script| <= 18 + 3 * |call.files|
    ensures old(hub.script) == [] && Canonical(call.treePath) && CanonicalFiles(call.files) ==>
              var start := CreateRef(old(hub.heads), call.branch, Orphan(call.branch, date));
              r == Returned(Made(call, start[call.branch], date)) && hub.heads == start[call.branch := r.commit]
  {
    hide Elapsed, Tried, Canonical, CanonicalFiles, Delivered, Advanced, Answered, Made, Ancestor, Orphan, Rest, Rivals, Budget;
    ghost var h0, s0, n := hub.heads, hub.script, |call.files|;
    var b := call.branch;
    var ok := EnsureBranch(hub, b, date);
    ElapsedTried(h0, s0, hub.heads, hub.script, b, 3, ok, 3);
    BudgetGrows(0, n);
    Ends(h0, s0, hub.heads, hub.script, b, 0, 3, ok, n);
    if !ok { return Failed; }
    var attempt := 0;
    BudgetGrows(0, n);
    while attempt < COMMIT_MAX_RETRIES
      invariant attempt <= COMMIT_MAX_RETRIES
      invariant Tried(h0, s0, hub.heads, hub.script, b, attempt, Budget(attempt, n), true) && b in hub.heads
      invariant s0 == [] && Canonical(call.treePath) && CanonicalFiles(call.files) ==>
                  attempt == 0 && hub.script == [] && hub.heads == CreateRef(h0, b, Orphan(b, date))
    {
      ghost var h1, s1 := hub.heads, hub.script;
      var tried := CommitOnce(hub, call, date);
      TriedOn(h0, s0, h1, s1, b, attempt, Budget(attempt, n), hub.heads, hub.script, if tried.Clash? then 1 else 0, 5 + n, !tried.Error?);
      BudgetGrows(attempt, n);
      TriedAdvances(h1, s1, hub.heads, hub.script, b, if tried.Clash? then 1 else 0, 5 + n, !tried.Error?);
      if !tried.Clash? {
        Ends(h0, s0, hub.heads, hub.script, b, attempt, Budget(attempt + 1, n), !tried.Error?, n);
        return if tried.Success? then Returned(tried.commit) else Failed;
      }
      attempt := attempt + 1;
    }
    Ends(h0, s0, hub.heads, hub.script, b, 3, Budget(3, n), true, n);
    r := Failed;
  }

  /** The calls it takes to ensure the branch and to make so many attempts, each uploading n files. */
  function Budget(attempts: nat, n: nat): nat { 3 + attempts * (5 + n) }

  lemma BudgetGrows(attempts: nat, n: nat)
    ensures Budget(0, n) == 3 && Budget(attempts + 1, n) == Budget(attempts, n) + 5 + n
    ensures attempts < 3 ==> Budget(attempts + 1, n) <= Budget(3, n)
  {
    assert (attempts + 1) * (5 + n) == attempts * (5 + n) + 5 + n;
    if attempts < 3 { assert attempts == 0 || attempts == 1 || attempts == 2; }
  }

  lemma Ends(h0: Refs, s0: seq<Turn>, h1: Refs, s1: seq<Turn>, b: string, refused: nat, calls: nat, ok: bool, n: nat)
    requires Tried(h0, s0, h1, s1, b, refused, calls, ok) && calls <= Budget(3, n)
    ensures Advanced(h0, h1) && Rest(s0, s1) && |s0| - |s1| <= 18 + 3 * n
    ensures Rivals(s1, b) + refused <= Rivals(s0, b) && (ok <==> Answered(s0, s1))
  {
  }

  /** Walks the recursive tree listing in whatever order it comes and keeps what lies below the directory. */
  method ReadFiles(hub: Repository, commit: Commit, treePath: string) returns (ok: bool, files: FileMap)
    modifies hub
    ensures ok ==> files == ReadTree(commit.tree, treePath)
    ensures old(hub.script) == [] ==> ok
  {
    files := map[];
    ok := AddObject(hub);                  // fetching the listing
    if !ok { return; }
    var todo := commit.tree.Keys;
    while todo != {}
      invariant todo <= commit.tree.Keys
      invariant forall rel :: rel in files <==> treePath + "/" + rel in commit.tree && treePath + "/" + rel !in todo
      invariant forall rel | rel in files :: files[rel] == commit.tree[treePath + "/" + rel]
      invariant old(hub.script) == [] ==> hub.script == []
      decreases todo
    {
      var entry :| entry in todo;
      todo := todo - {entry};
      if !Under(treePath, entry) {
        assert forall rel :: treePath + "/" + rel != entry;
        continue;
      }
      ok := AddObject(hub);                // fetching the blob
      if !ok { return; }
      assert entry == treePath + "/" + entry[|treePath| + 1..];
      assert forall rel :: (treePath + "/" + rel)[|treePath| + 1..] == rel;
      files := files[entry[|treePath| + 1..] := commit.tree[entry]];
    }
    ok := true;
  }
}
