/** The task service as the program runs it: an object whose methods change the
    task, event and link tables in place. */
module TaskService {
  import opened Wrappers
  import opened TaskStore

  class TaskService {
    var tasks: seq<Task>
    var events: seq<Event>
    var links: seq<Link>

    ghost function View(): Store
      reads this
    {
      Store(tasks, events, links)
    }

    constructor ()
      ensures View() == Empty
    {
      tasks, events, links := [], [], [];
    }

    method Create(data: NewTask, generated: nat, sources: nat) returns (reply: Result<nat, TaskError>)
      modifies this
      ensures TaskStore.Create(old(View()), data, generated, sources) == Outcome(View(), reply)
    {
      var key := match data.key case Some(k) => k case None => Generated(generated);
      if HasTaskKey(tasks, key) {
        return Ok(TaskByKey(tasks, key));
      }
      if data.source.Some? && data.source.value >= sources {
        return Err(SourceNotFound);
      }
      if KeyRecorded(events, key) {
        return Err(IntegrityError);
      }
      var id := |tasks|;
      tasks := tasks + [Task(data.fields, 1, None, None, key)];
      if data.source.Some? {
        links := links + [Link(id, data.source.value)];
      }
      events := events + [CreatedEvent(id, data.fields, key)];
      return Ok(id);
    }

    method Update(id: nat, p: Patch, version: Option<int>, key: Option<OpKey>, now: int)
      returns (reply: Result<nat, TaskError>)
      modifies this
      ensures TaskStore.Update(old(View()), id, p, version, key, now) == Outcome(View(), reply)
    {
      if id >= |tasks| {
        return Err(NotFound);
      }
      if IsLookedUp(key) && KeyRecorded(events, key.value) {
        return Ok(id);
      }
      var task := tasks[id];
      if version.Some? && version.value != task.version {
        return Err(VersionConflict);
      }
      if ChangesStatus(task.fields, p) {
        if !ValidTransition(task.fields.status, p.status.value.value) {
          return Err(InvalidTransition);
        }
        task := task.(completedAt := if p.status.value.value == Done then Some(now) else None);
      }
      if NullsRequired(p) || KeyClashes(events, key) {
        return Err(IntegrityError);
      }
      var oldValue := Snapshot(task.fields, p);
      task := task.(fields := Apply(task.fields, p));
      task := task.(version := task.version + 1);
      tasks := tasks[id := task];
      var kind := if p.status.Set? && p.status.value.Some? then StatusChanged else TaskUpdated;
      events := events + [Event(id, kind, Some(oldValue), Some(p), key)];
      return Ok(id);
    }

    method Complete(id: nat, key: Option<OpKey>, version: Option<int>, now: int)
      returns (reply: Result<nat, TaskError>)
      modifies this
      ensures TaskStore.Update(old(View()), id, CompletePatch(), version, key, now) == Outcome(View(), reply)
    {
      reply := Update(id, NoChange.(status := Set(Some(Done))), version, key, now);
    }

    method Postpone(id: nat, newDueAt: int, version: Option<int>, key: Option<OpKey>, now: int)
      returns (reply: Result<nat, TaskError>)
      modifies this
      ensures TaskStore.Update(old(View()), id, PostponePatch(newDueAt), version, key, now) == Outcome(View(), reply)
    {
      reply := Update(id, NoChange.(dueAt := Set(Some(newDueAt)), status := Set(Some(Postponed))), version, key, now);
    }

    method Cancel(id: nat, version: Option<int>, key: Option<OpKey>) returns (reply: Result<nat, TaskError>)
      modifies this
      ensures TaskStore.Cancel(old(View()), id, version, key) == Outcome(View(), reply)
    {
      if id >= |tasks| {
        return Err(NotFound);
      }
      if IsLookedUp(key) && KeyRecorded(events, key.value) {
        return Ok(id);
      }
      var task := tasks[id];
      if version.Some? && version.value != task.version {
        return Err(VersionConflict);
      }
      if KeyClashes(events, key) {
        return Err(IntegrityError);
      }
      task := task.(fields := task.fields.(status := Cancelled));
      task := task.(version := task.version + 1);
      tasks := tasks[id := task];
      events := events + [Event(id, TaskCancelled, None, None, key)];
      return Ok(id);
    }

    /** The reminder sender notes the delivery on the task row. */
    method Remind(id: nat, now: int)
      modifies this
      ensures View() == TaskStore.Remind(old(View()), id, now)
    {
      if id < |tasks| {
        tasks := tasks[id := tasks[id].(lastRemindedAt := Some(now))];
      }
    }
  }
}
