/** The entities of the task engine that the image-pulled rule reads and writes:
    containers and their image sources, the events of the log, the steps of the
    queue, and the event context that owns the log, the queue and the abort flag. */
module TaskModel {
  import opened Wrappers

  datatype DockerImage = DockerImage(id: string)

  datatype DockerNetwork = DockerNetwork(id: string)

  /** Where a container's image comes from. */
  datatype ImageSource = BuildImage(buildDirectory: string) | PullImage(imageName: string)

  /** A container of the task, as resolved by the configuration. Its command is not a
      field here: the context's `commandForContainer` resolves it. */
  datatype Container = Container(name: string, imageSource: ImageSource)

  /** The events this model puts in the log. */
  datatype TaskEvent =
    | TaskNetworkCreatedEvent(network: DockerNetwork)
    | ImagePulledEvent(image: DockerImage)

  /** The steps this model puts in the queue. */
  datatype TaskStep =
    | CreateContainerStep(container: Container, command: Option<string>, image: DockerImage, network: DockerNetwork)

  /** How many network-created events the log holds. */
  function NetworkCreatedCount(events: seq<TaskEvent>): (n: nat)
    ensures n <= |events|
    ensures n == 0 <==> forall i :: 0 <= i < |events| ==> !events[i].TaskNetworkCreatedEvent?
  {
    if events == [] then 0
    else NetworkCreatedCount(events[..|events| - 1]) + (if events[|events| - 1].TaskNetworkCreatedEvent? then 1 else 0)
  }

  /** The single past network-created event, or none when the log holds none.
      A log with two of them is a defect the caller must exclude. */
  function SinglePastNetworkCreatedEvent(events: seq<TaskEvent>): (r: Option<DockerNetwork>)
    requires NetworkCreatedCount(events) <= 1
    ensures r.None? <==> NetworkCreatedCount(events) == 0
    ensures r.Some? ==> TaskNetworkCreatedEvent(r.value) in events
    ensures forall n :: TaskNetworkCreatedEvent(n) in events ==> r == Some(n)
  {
    if events == [] then None
    else
      var last := events[|events| - 1];
      var earlier := events[..|events| - 1];
      assert events == earlier + [last];
      if last.TaskNetworkCreatedEvent? then Some(last.network)
      else SinglePastNetworkCreatedEvent(earlier)
  }

  /** Posting the first network-created event makes the lookup find exactly that event,
      whatever else the log holds. */
  lemma {:induction false} LookupAfterFirstNetworkCreated(events: seq<TaskEvent>, network: DockerNetwork)
    requires NetworkCreatedCount(events) == 0
    ensures NetworkCreatedCount(events + [TaskNetworkCreatedEvent(network)]) == 1
    ensures SinglePastNetworkCreatedEvent(events + [TaskNetworkCreatedEvent(network)]) == Some(network)
  {
    var after := events + [TaskNetworkCreatedEvent(network)];
    assert after[..|after| - 1] == events;
  }

  /** Posting a second network-created event leaves the log outside the lookup's domain. */
  lemma {:induction false} SecondNetworkCreatedIsDefect(events: seq<TaskEvent>, network: DockerNetwork)
    requires NetworkCreatedCount(events) == 1
    ensures NetworkCreatedCount(events + [TaskNetworkCreatedEvent(network)]) == 2
  {
    var after := events + [TaskNetworkCreatedEvent(network)];
    assert after[..|after| - 1] == events;
  }

  /** The context an event's reaction runs against: the append-only event log, the
      queue of steps, the abort flag, the task's containers and the command resolver. */
  class TaskEventContext {
    var events: seq<TaskEvent>
    var steps: seq<TaskStep>
    var isAborting: bool
    const allTaskContainers: seq<Container>
    const commandForContainer: Container -> Option<string>

    constructor (containers: seq<Container>, commandFor: Container -> Option<string>)
      ensures events == [] && steps == [] && !isAborting
      ensures allTaskContainers == containers && commandForContainer == commandFor
    {
      events := [];
      steps := [];
      isAborting := false;
      allTaskContainers := containers;
      commandForContainer := commandFor;
    }

    /** Appends a step to the queue and changes nothing else. */
    method QueueStep(step: TaskStep)
      modifies this
      ensures steps == old(steps) + [step]
      ensures events == old(events) && isAborting == old(isAborting)
    {
      steps := steps + [step];
    }
  }
}
