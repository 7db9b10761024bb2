/** The one-shot busybox job (pkg/smoketests/job.go). */
module Jobs {
  import opened Kube
  import opened Consts
  import opened Strs

  /** The job name: the '-'-separated groups of the UUID text run together, less
      the first ⌊k/2⌋ characters for k groups. Slicing past the end panics, which
      only a text far from a UUID's can make happen. */
  function JobName(uuidText: string): (r: Result<string>)
    ensures var k := |Split(uuidText, '-')|;
      var digits := Without(uuidText, '-');
      && (r.Ok? <==> k / 2 <= |digits|)
      && (r.Ok? ==> r.value == digits[k / 2..] && '-' !in r.value)
      && (r.Err? ==> r.error.Panic?)
  {
    ConcatSplit(uuidText, '-');
    var groups := Split(uuidText, '-');
    var joined := Concat(groups);
    if |groups| / 2 <= |joined| then Ok(joined[|groups| / 2..])
    else Err(Panic("slice bounds out of range"))
  }

  /** The text of five groups separated by '-'. */
  function Grouped(g1: string, g2: string, g3: string, g4: string, g5: string): string
  {
    g1 + "-" + g2 + "-" + g3 + "-" + g4 + "-" + g5
  }

  /** Five '-'-free groups separated by '-' split back into the five groups. */
  lemma SplitGrouped(g1: string, g2: string, g3: string, g4: string, g5: string)
    requires '-' !in g1 && '-' !in g2 && '-' !in g3 && '-' !in g4 && '-' !in g5
    ensures Split(Grouped(g1, g2, g3, g4, g5), '-') == [g1, g2, g3, g4, g5]
  {
    var groups := [g1, g2, g3, g4, g5];
    forall i | 0 <= i < 5 ensures '-' !in groups[i] { }
    SplitJoin(groups, '-');
    assert Join(groups, "-") == Grouped(g1, g2, g3, g4, g5) by {
      assert Join(groups[4..], "-") == g5;
      assert Join(groups[3..], "-") == g4 + "-" + g5;
      assert Join(groups[2..], "-") == g3 + "-" + (g4 + "-" + g5);
      assert Join(groups[1..], "-") == g2 + "-" + (g3 + "-" + (g4 + "-" + g5));
    }
  }

  /** For a UUID in its canonical 8-4-4-4-12 text form the name is its 32 digits
      less the first two: 30 characters. */
  lemma CanonicalJobName(g1: string, g2: string, g3: string, g4: string, g5: string)
    requires |g1| == 8 && |g2| == 4 && |g3| == 4 && |g4| == 4 && |g5| == 12
    requires '-' !in g1 && '-' !in g2 && '-' !in g3 && '-' !in g4 && '-' !in g5
    ensures JobName(Grouped(g1, g2, g3, g4, g5)) == Ok((g1 + g2 + g3 + g4 + g5)[2..])
    ensures |(g1 + g2 + g3 + g4 + g5)[2..]| == 30
  {
    SplitGrouped(g1, g2, g3, g4, g5);
    var groups := [g1, g2, g3, g4, g5];
    assert Concat(groups) == g1 + g2 + g3 + g4 + g5 by {
      assert Join(groups[4..], "") == g5;
      assert Join(groups[3..], "") == g4 + g5;
      assert Join(groups[2..], "") == g3 + (g4 + g5);
      assert Join(groups[1..], "") == g2 + (g3 + (g4 + g5));
    }
  }

  /** The job CreateJob sends. */
  function BuildJob(name: string, arg: string): (j: Job)
    ensures j.name == name && j.template.spec.restartPolicy == RestartNever
    ensures j.template.spec.containers == [Container("box", "busybox", PullUnset, ["/bin/sh", "-c"], [arg])]
  {
    Job(name, map[],
      PodTemplate("tester", map[],
        PodSpec([Container("box", "busybox", PullUnset, ["/bin/sh", "-c"], [arg])], RestartNever)))
  }

  /** CreateJob(ctx, client, arg) with the UUID's text and Create's reply given. */
  function CreateJob(uuidText: string, arg: string, create: Result<Job>): (a: Answer<Job>)
    ensures JobName(uuidText).Err? ==> a == Answer(Err(JobName(uuidText).error), [])
    ensures JobName(uuidText).Ok? ==>
              a.result == create && a.calls == [JobCreate(NamespaceName, BuildJob(JobName(uuidText).value, arg))]
  {
    match JobName(uuidText)
    case Err(e) => Answer(Err(e), [])
    case Ok(name) => Answer(create, [JobCreate(NamespaceName, BuildJob(name, arg))])
  }
}
