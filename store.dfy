/**
 * The canonical store (`data.json`) as a value, and the loop every enrichment pass runs
 * over it: visit each entry of each per-spec list in file order, compute the entry's new
 * value, overwrite it only when it differs, and count the overwrites. The count decides
 * whether the pass writes the file back.
 */
module CanonicalStore {
  import opened Wrappers

  /** One prerequisite row of a wiki page: `{"name": ..., "level": ..., "id": ...}`, each key optional. */
  datatype Prereq = Prereq(name: Option<string>, level: Option<nat>, id: Option<string>)

  /** One value of a progression column: an integer when the cell is a number, else its text. */
  datatype Cell = Num(n: nat) | Str(s: string)

  /** One value of a skill's `info` record: a text, the `levels` number (null when not numeric), or a list. */
  datatype InfoValue = Text(s: string) | Count(n: Option<nat>) | Names(items: seq<string>)

  /** The `info` record of a skill, keyed as in the JSON (`type`, `levels`, `cast_time`, ...). */
  type Info = map<string, InfoValue>

  /** A skill or DNA record; the optional keys are added by the enrichment passes. */
  datatype Entry = Entry(
    id: string,
    name: string,
    maxLevel: int,
    prereqs: Option<map<string, Prereq>>,
    lvlReq: Option<seq<Option<nat>>>,
    info: Option<Info>,
    progression: Option<map<string, seq<Cell>>>)

  datatype Spec = Spec(id: string, name: string)

  datatype Job = Job(id: string, name: string, specs: seq<Spec>)

  datatype Group = Group(id: string, name: string)

  /** A JSON object from spec id to entry list, in file order. */
  type EntryLists = seq<(string, seq<Entry>)>

  /** A JSON object from race id to first-job list, in file order. */
  type JobLists = seq<(string, seq<Job>)>

  datatype Store = Store(groups: seq<Group>, jobs: JobLists, skills: EntryLists, dna: EntryLists)

  // ---------------------------------------------------------------------------
  // Rewriting every entry of a collection

  function MapEntries(es: seq<Entry>, f: Entry -> Entry): (r: seq<Entry>)
    ensures |r| == |es| && forall i :: 0 <= i < |es| ==> r[i] == f(es[i])
  {
    seq(|es|, i requires 0 <= i < |es| => f(es[i]))
  }

  /** How many entries `f` changes. */
  function Changed(es: seq<Entry>, f: Entry -> Entry): nat
  {
    if |es| == 0 then 0
    else Changed(es[..|es| - 1], f) + (if f(es[|es| - 1]) != es[|es| - 1] then 1 else 0)
  }

  function MapLists(ls: EntryLists, f: Entry -> Entry): (r: EntryLists)
    ensures |r| == |ls|
    ensures forall i :: 0 <= i < |ls| ==> r[i].0 == ls[i].0 && r[i].1 == MapEntries(ls[i].1, f)
  {
    seq(|ls|, i requires 0 <= i < |ls| => (ls[i].0, MapEntries(ls[i].1, f)))
  }

  function ListsChanged(ls: EntryLists, f: Entry -> Entry): nat
  {
    if |ls| == 0 then 0 else ListsChanged(ls[..|ls| - 1], f) + Changed(ls[|ls| - 1].1, f)
  }

  /** The inner loop of every pass: rewrite one list, counting real changes. */
  method RewriteEntries(es: seq<Entry>, f: Entry -> Entry) returns (out: seq<Entry>, count: nat)
    ensures out == MapEntries(es, f)
    ensures count == Changed(es, f)
  {
    out, count := [], 0;
    var j := 0;
    while j < |es|
      invariant 0 <= j <= |es|
      invariant out == MapEntries(es[..j], f)
      invariant count == Changed(es[..j], f)
    {
      var e := es[j];
      var updated := f(e);
      assert es[..j + 1][..j] == es[..j];
      if updated != e {
        out := out + [updated];
        count := count + 1;
      } else {
        out := out + [e];
      }
      j := j + 1;
    }
    assert es[..|es|] == es;
  }

  /** The outer loop of every pass: each spec's list in turn. */
  method RewriteLists(ls: EntryLists, f: Entry -> Entry) returns (out: EntryLists, count: nat)
    ensures out == MapLists(ls, f)
    ensures count == ListsChanged(ls, f)
  {
    out, count := [], 0;
    var i := 0;
    while i < |ls|
      invariant 0 <= i <= |ls|
      invariant out == MapLists(ls[..i], f)
      invariant count == ListsChanged(ls[..i], f)
    {
      var rewritten, n := RewriteEntries(ls[i].1, f);
      assert ls[..i + 1][..i] == ls[..i];
      out := out + [(ls[i].0, rewritten)];
      count := count + n;
      i := i + 1;
    }
    assert ls[..|ls|] == ls;
  }

  lemma {:induction false} ChangedZero(es: seq<Entry>, f: Entry -> Entry)
    ensures Changed(es, f) == 0 <==> MapEntries(es, f) == es
  {
    if |es| > 0 {
      var init := es[..|es| - 1];
      ChangedZero(init, f);
      assert MapEntries(es, f) == MapEntries(init, f) + [f(es[|es| - 1])];
      assert es == init + [es[|es| - 1]];
      if MapEntries(es, f) == es {
        assert MapEntries(init, f) == MapEntries(es, f)[..|es| - 1];
      }
    }
  }

  /**
   * A pass that counted no change leaves every list as it was, and one that counted a
   * change altered some list: writing back only on a positive count loses nothing.
   */
  lemma {:induction false} ListsChangedZero(ls: EntryLists, f: Entry -> Entry)
    ensures ListsChanged(ls, f) == 0 <==> MapLists(ls, f) == ls
  {
    if |ls| > 0 {
      var init := ls[..|ls| - 1];
      var last := ls[|ls| - 1];
      ListsChangedZero(init, f);
      ChangedZero(last.1, f);
      assert MapLists(ls, f) == MapLists(init, f) + [(last.0, MapEntries(last.1, f))];
      assert ls == init + [last];
      if MapLists(ls, f) == ls {
        assert MapLists(init, f) == MapLists(ls, f)[..|ls| - 1];
        assert MapLists(ls, f)[|ls| - 1] == last;
      }
    }
  }

  /** When the per-entry rewrite is idempotent, so is the pass, and its second run counts nothing. */
  lemma IdempotentRewrite(ls: EntryLists, f: Entry -> Entry)
    requires forall e :: f(f(e)) == f(e)
    ensures MapLists(MapLists(ls, f), f) == MapLists(ls, f)
    ensures ListsChanged(MapLists(ls, f), f) == 0
  {
    var once := MapLists(ls, f);
    forall i | 0 <= i < |ls| ensures MapLists(once, f)[i] == once[i] {
      assert MapEntries(once[i].1, f) == once[i].1;
    }
    ListsChangedZero(once, f);
  }

  // ---------------------------------------------------------------------------
  // Renaming every job and spec

  function RenameSpecs(specs: seq<Spec>, g: string -> string): (r: seq<Spec>)
    ensures |r| == |specs|
    ensures forall i :: 0 <= i < |specs| ==> r[i] == specs[i].(name := g(specs[i].name))
  {
    seq(|specs|, i requires 0 <= i < |specs| => specs[i].(name := g(specs[i].name)))
  }

  function SpecsChanged(specs: seq<Spec>, g: string -> string): nat
  {
    if |specs| == 0 then 0
    else SpecsChanged(specs[..|specs| - 1], g) + (if g(specs[|specs| - 1].name) != specs[|specs| - 1].name then 1 else 0)
  }

  function RenameJob(job: Job, fj: string -> string, fs: string -> string): Job
  {
    Job(job.id, fj(job.name), RenameSpecs(job.specs, fs))
  }

  function JobChanged(job: Job, fj: string -> string, fs: string -> string): nat
  {
    (if fj(job.name) != job.name then 1 else 0) + SpecsChanged(job.specs, fs)
  }

  function RenameJobs(jobs: seq<Job>, fj: string -> string, fs: string -> string): (r: seq<Job>)
    ensures |r| == |jobs| && forall i :: 0 <= i < |jobs| ==> r[i] == RenameJob(jobs[i], fj, fs)
  {
    seq(|jobs|, i requires 0 <= i < |jobs| => RenameJob(jobs[i], fj, fs))
  }

  function JobsChanged(jobs: seq<Job>, fj: string -> string, fs: string -> string): nat
  {
    if |jobs| == 0 then 0 else JobsChanged(jobs[..|jobs| - 1], fj, fs) + JobChanged(jobs[|jobs| - 1], fj, fs)
  }

  function RenameJobLists(ls: JobLists, fj: string -> string, fs: string -> string): (r: JobLists)
    ensures |r| == |ls|
    ensures forall i :: 0 <= i < |ls| ==> r[i].0 == ls[i].0 && r[i].1 == RenameJobs(ls[i].1, fj, fs)
  {
    seq(|ls|, i requires 0 <= i < |ls| => (ls[i].0, RenameJobs(ls[i].1, fj, fs)))
  }

  function JobListsChanged(ls: JobLists, fj: string -> string, fs: string -> string): nat
  {
    if |ls| == 0 then 0 else JobListsChanged(ls[..|ls| - 1], fj, fs) + JobsChanged(ls[|ls| - 1].1, fj, fs)
  }

  method RewriteSpecNames(specs: seq<Spec>, g: string -> string) returns (out: seq<Spec>, count: nat)
    ensures out == RenameSpecs(specs, g) && count == SpecsChanged(specs, g)
  {
    out, count := [], 0;
    var k := 0;
    while k < |specs|
      invariant 0 <= k <= |specs|
      invariant out == RenameSpecs(specs[..k], g)
      invariant count == SpecsChanged(specs[..k], g)
    {
      var spec := specs[k];
      var newName := g(spec.name);
      assert specs[..k + 1][..k] == specs[..k];
      if spec.name != newName {
        out := out + [spec.(name := newName)];
        count := count + 1;
      } else {
        out := out + [spec];
      }
      k := k + 1;
    }
    assert specs[..|specs|] == specs;
  }

  /** One job: its own name first, then the names of its specs. */
  method RewriteJobName(job: Job, fj: string -> string, fs: string -> string) returns (out: Job, count: nat)
    ensures out == RenameJob(job, fj, fs) && count == JobChanged(job, fj, fs)
  {
    out := job;
    var newName := fj(job.name);
    count := 0;
    if job.name != newName {
      out := out.(name := newName);
      count := 1;
    }
    var specs, n := RewriteSpecNames(job.specs, fs);
    out := out.(specs := specs);
    count := count + n;
  }

  method RewriteJobNames(jobs: seq<Job>, fj: string -> string, fs: string -> string) returns (out: seq<Job>, count: nat)
    ensures out == RenameJobs(jobs, fj, fs) && count == JobsChanged(jobs, fj, fs)
  {
    out, count := [], 0;
    var j := 0;
    while j < |jobs|
      invariant 0 <= j <= |jobs|
      invariant out == RenameJobs(jobs[..j], fj, fs)
      invariant count == JobsChanged(jobs[..j], fj, fs)
    {
      var job, n := RewriteJobName(jobs[j], fj, fs);
      assert jobs[..j + 1][..j] == jobs[..j];
      out := out + [job];
      count := count + n;
      j := j + 1;
    }
    assert jobs[..|jobs|] == jobs;
  }

  method RewriteJobLists(ls: JobLists, fj: string -> string, fs: string -> string) returns (out: JobLists, count: nat)
    ensures out == RenameJobLists(ls, fj, fs) && count == JobListsChanged(ls, fj, fs)
  {
    out, count := [], 0;
    var i := 0;
    while i < |ls|
      invariant 0 <= i <= |ls|
      invariant out == RenameJobLists(ls[..i], fj, fs)
      invariant count == JobListsChanged(ls[..i], fj, fs)
    {
      var jobs, n := RewriteJobNames(ls[i].1, fj, fs);
      assert ls[..i + 1][..i] == ls[..i];
      out := out + [(ls[i].0, jobs)];
      count := count + n;
      i := i + 1;
    }
    assert ls[..|ls|] == ls;
  }

  lemma {:induction false} SpecsChangedZero(specs: seq<Spec>, g: string -> string)
    ensures SpecsChanged(specs, g) == 0 <==> RenameSpecs(specs, g) == specs
  {
    if |specs| > 0 {
      var init := specs[..|specs| - 1];
      SpecsChangedZero(init, g);
      assert RenameSpecs(specs, g) == RenameSpecs(init, g) + [RenameSpecs(specs, g)[|specs| - 1]];
      assert specs == init + [specs[|specs| - 1]];
      if RenameSpecs(specs, g) == specs {
        assert RenameSpecs(init, g) == RenameSpecs(specs, g)[..|specs| - 1];
        assert RenameSpecs(specs, g)[|specs| - 1].name == specs[|specs| - 1].name;
      }
    }
  }

  lemma {:induction false} JobsChangedZero(jobs: seq<Job>, fj: string -> string, fs: string -> string)
    ensures JobsChanged(jobs, fj, fs) == 0 <==> RenameJobs(jobs, fj, fs) == jobs
  {
    if |jobs| > 0 {
      var init := jobs[..|jobs| - 1];
      var last := jobs[|jobs| - 1];
      JobsChangedZero(init, fj, fs);
      SpecsChangedZero(last.specs, fs);
      assert RenameJobs(jobs, fj, fs) == RenameJobs(init, fj, fs) + [RenameJob(last, fj, fs)];
      assert jobs == init + [last];
      if RenameJobs(jobs, fj, fs) == jobs {
        assert RenameJobs(init, fj, fs) == RenameJobs(jobs, fj, fs)[..|jobs| - 1];
        assert RenameJob(last, fj, fs) == last;
      }
    }
  }

  /** The job and spec renaming counts nothing exactly when it renames nothing. */
  lemma {:induction false} JobListsChangedZero(ls: JobLists, fj: string -> string, fs: string -> string)
    ensures JobListsChanged(ls, fj, fs) == 0 <==> RenameJobLists(ls, fj, fs) == ls
  {
    if |ls| > 0 {
      var init := ls[..|ls| - 1];
      var last := ls[|ls| - 1];
      JobListsChangedZero(init, fj, fs);
      JobsChangedZero(last.1, fj, fs);
      assert RenameJobLists(ls, fj, fs) == RenameJobLists(init, fj, fs) + [(last.0, RenameJobs(last.1, fj, fs))];
      assert ls == init + [last];
      if RenameJobLists(ls, fj, fs) == ls {
        assert RenameJobLists(init, fj, fs) == RenameJobLists(ls, fj, fs)[..|ls| - 1];
        assert RenameJobLists(ls, fj, fs)[|ls| - 1] == last;
      }
    }
  }
}
