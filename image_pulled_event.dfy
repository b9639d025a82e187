/** The reaction to an image having been pulled: once the task network exists, queue a
    create-container step for every container that runs the pulled image. */
module ImagePulledEvents {
  import opened Wrappers
  import opened TaskModel

  /** Whether `c` runs an image pulled under the name of `image`. */
  predicate UsesPulledImage(c: Container, image: DockerImage)
  {
    c.imageSource == PullImage(image.id)
  }

  /** The containers that run `image`, in the order of `containers`. */
  function ContainersUsing(containers: seq<Container>, image: DockerImage): (r: seq<Container>)
    ensures |r| <= |containers|
    ensures forall c :: c in r <==> c in containers && UsesPulledImage(c, image)
  {
    if containers == [] then []
    else
      (if UsesPulledImage(containers[0], image) then [containers[0]] else [])
      + ContainersUsing(containers[1..], image)
  }

  /** `a` is `b` with some elements left out, in the order they have in `b`. */
  predicate IsSubsequence<T(==)>(a: seq<T>, b: seq<T>)
    decreases |b|
  {
    if a == [] then true
    else if b == [] then false
    else (a[0] == b[0] && IsSubsequence(a[1..], b[1..])) || IsSubsequence(a, b[1..])
  }

  /** The matching containers keep their relative order in the task's container list. */
  lemma {:induction false} ContainersUsingKeepsOrder(containers: seq<Container>, image: DockerImage)
    ensures IsSubsequence(ContainersUsing(containers, image), containers)
  {
    if containers != [] {
      ContainersUsingKeepsOrder(containers[1..], image);
      var rest := ContainersUsing(containers[1..], image);
      if UsesPulledImage(containers[0], image) {
        assert ([containers[0]] + rest)[1..] == rest;
      } else {
        assert [] + rest == rest;
      }
    }
  }

  /** Every matching container is kept as often as it occurs, every other one is dropped:
      with the containers of a task (which are distinct) that is exactly once each. */
  lemma {:induction false} ContainersUsingCounts(containers: seq<Container>, image: DockerImage, c: Container)
    ensures multiset(ContainersUsing(containers, image))[c]
            == if UsesPulledImage(c, image) then multiset(containers)[c] else 0
  {
    if containers != [] {
      ContainersUsingCounts(containers[1..], image, c);
      assert containers == [containers[0]] + containers[1..];
    }
  }

  /** The step `createContainer` queues for one container. */
  function CreateStepFor(c: Container, commandFor: Container -> Option<string>, image: DockerImage, network: DockerNetwork): (s: TaskStep)
  {
    CreateContainerStep(c, commandFor(c), image, network)
  }

  /** One create-container step per container of `cs`, in the same order. */
  function CreateSteps(cs: seq<Container>, commandFor: Container -> Option<string>, image: DockerImage, network: DockerNetwork): (r: seq<TaskStep>)
    ensures |r| == |cs|
    ensures forall i :: 0 <= i < |cs| ==> r[i] == CreateStepFor(cs[i], commandFor, image, network)
  {
    if cs == [] then []
    else CreateSteps(cs[..|cs| - 1], commandFor, image, network) + [CreateStepFor(cs[|cs| - 1], commandFor, image, network)]
  }

  /** The steps the image-pulled rule queues, given the state of the context it runs against. */
  function ImagePulledReaction(image: DockerImage, events: seq<TaskEvent>, isAborting: bool,
                               containers: seq<Container>, commandFor: Container -> Option<string>): (r: seq<TaskStep>)
    requires !isAborting ==> NetworkCreatedCount(events) <= 1
    ensures forall i :: 0 <= i < |r| ==> r[i].CreateContainerStep? && r[i].image == image
  {
    if isAborting then []
    else match SinglePastNetworkCreatedEvent(events)
      case None => []
      case Some(network) => CreateSteps(ContainersUsing(containers, image), commandFor, image, network)
  }

  /** An aborting run queues nothing in reaction to a pulled image. */
  lemma AbortingQueuesNothing(image: DockerImage, events: seq<TaskEvent>, containers: seq<Container>, commandFor: Container -> Option<string>)
    ensures ImagePulledReaction(image, events, true, containers, commandFor) == []
  {
  }

  /** Before the network exists, a pulled image queues nothing. */
  lemma NoNetworkQueuesNothing(image: DockerImage, events: seq<TaskEvent>, isAborting: bool, containers: seq<Container>, commandFor: Container -> Option<string>)
    requires NetworkCreatedCount(events) == 0
    ensures ImagePulledReaction(image, events, isAborting, containers, commandFor) == []
  {
  }

  /** With the network created and the run not aborting, the queued steps are exactly one
      create-container step per container that runs the pulled image, bound to the
      container's command, the image and the network of the single network-created event,
      in the containers' own order. */
  lemma {:induction false} ReactionWithNetwork(image: DockerImage, events: seq<TaskEvent>, network: DockerNetwork,
                                               containers: seq<Container>, commandFor: Container -> Option<string>)
    requires NetworkCreatedCount(events) <= 1
    requires TaskNetworkCreatedEvent(network) in events
    ensures var r := ImagePulledReaction(image, events, false, containers, commandFor);
            && |r| == |ContainersUsing(containers, image)|
            && (forall i :: 0 <= i < |r| ==>
                  r[i] == CreateContainerStep(ContainersUsing(containers, image)[i], commandFor(ContainersUsing(containers, image)[i]), image, network))
            && (forall s :: s in r <==>
                  exists c :: c in containers && UsesPulledImage(c, image) && s == CreateContainerStep(c, commandFor(c), image, network))
  {
    var matching := ContainersUsing(containers, image);
    var r := ImagePulledReaction(image, events, false, containers, commandFor);
    assert r == CreateSteps(matching, commandFor, image, network);
    forall s | s in r
      ensures exists c :: c in containers && UsesPulledImage(c, image) && s == CreateContainerStep(c, commandFor(c), image, network)
    {
      var i :| 0 <= i < |r| && r[i] == s;
      assert matching[i] in matching;
    }
    forall c | c in containers && UsesPulledImage(c, image)
      ensures CreateContainerStep(c, commandFor(c), image, network) in r
    {
      var i :| 0 <= i < |matching| && matching[i] == c;
      assert r[i] == CreateContainerStep(c, commandFor(c), image, network);
    }
  }

  /** The reaction of `apply` does not depend on the order in which the image-pulled event
      and the network-created event entered the log: only on which events are there. */
  lemma {:induction false} ReactionIgnoresLogOrder(image: DockerImage, events1: seq<TaskEvent>, events2: seq<TaskEvent>,
                                                   containers: seq<Container>, commandFor: Container -> Option<string>)
    requires NetworkCreatedCount(events1) <= 1 && NetworkCreatedCount(events2) <= 1
    requires forall e :: e in events1 <==> e in events2
    ensures ImagePulledReaction(image, events1, false, containers, commandFor)
         == ImagePulledReaction(image, events2, false, containers, commandFor)
  {
    match SinglePastNetworkCreatedEvent(events1)
    case None =>
    case Some(n) =>
      assert TaskNetworkCreatedEvent(n) in events2;
  }

  /** `createContainer`: queue the create-container step for one container. */
  method CreateContainer(image: DockerImage, container: Container, network: DockerNetwork, context: TaskEventContext)
    modifies context
    ensures context.steps == old(context.steps) + [CreateStepFor(container, context.commandForContainer, image, network)]
    ensures context.events == old(context.events) && context.isAborting == old(context.isAborting)
  {
    var command := context.commandForContainer(container);
    context.QueueStep(CreateContainerStep(container, command, image, network));
  }

  /** `apply` of the event that `image` was pulled: only appends to the step queue, and
      appends exactly the reaction's steps. */
  method Apply(image: DockerImage, context: TaskEventContext)
    requires !context.isAborting ==> NetworkCreatedCount(context.events) <= 1
    modifies context
    ensures context.steps == old(context.steps)
              + ImagePulledReaction(image, old(context.events), old(context.isAborting), context.allTaskContainers, context.commandForContainer)
    ensures context.events == old(context.events) && context.isAborting == old(context.isAborting)
  {
    if context.isAborting {
      return;
    }

    var networkCreationEvent := SinglePastNetworkCreatedEvent(context.events);

    if networkCreationEvent.Some? {
      var network := networkCreationEvent.value;
      var matching := ContainersUsing(context.allTaskContainers, image);
      var i := 0;
      while i < |matching|
        invariant 0 <= i <= |matching|
        invariant context.events == old(context.events) && context.isAborting == old(context.isAborting)
        invariant context.steps == old(context.steps) + CreateSteps(matching[..i], context.commandForContainer, image, network)
      {
        assert matching[..i + 1][..i] == matching[..i];
        CreateContainer(image, matching[i], network, context);
        i := i + 1;
      }
      assert matching[..i] == matching;
    }
  }

  /** `toString`: the class name and the pulled image's id, which can be cut back out
      of the fixed frame around it. */
  function ToString(image: DockerImage): (r: string)
    ensures |r| == 27 + |image.id|
    ensures r[..25] == "ImagePulledEvent(image: '"
    ensures r[25..|r| - 2] == image.id
    ensures r[|r| - 2..] == "')"
  {
    "ImagePulledEvent(image: '" + image.id + "')"
  }

  /** Two events print alike exactly when they pulled the same image. */
  lemma {:induction false} ToStringInjective(a: DockerImage, b: DockerImage)
    ensures ToString(a) == ToString(b) <==> a == b
  {
  }
}
