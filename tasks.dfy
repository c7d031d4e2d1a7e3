/**
 * Task records as the scheduler receives them from the task store
 * (ai_service/main.py, document_to_task).
 *
 * Timestamps are real numbers of hours since a fixed epoch; parsing ISO
 * strings is not modelled.
 */
module Tasks {
  import opened Wrappers

  /** A stored task document; `None` stands for an attribute the document lacks. */
  datatype Document = Document(
    id: string,
    title: Option<string>,
    category: Option<string>,
    priority: Option<int>,
    deadline: real,
    estimatedHours: Option<real>,
    energyLevel: Option<string>,
    status: Option<string>)

  /** The task dictionary the scheduler works on. */
  datatype Task = Task(
    id: string,
    title: string,
    category: string,
    priority: int,
    deadline: real,
    estimatedHours: real,
    energyLevel: string,
    status: string)

  const DefaultPriority: int := 3
  const DefaultEnergy: string := "medium"
  const DefaultStatus: string := "todo"

  /** Converts a document to a task, filling absent attributes with their defaults. */
  function DocumentToTask(doc: Document): (t: Task)
    ensures t.id == doc.id && t.deadline == doc.deadline
    ensures doc.title.None? ==> t.title == ""
    ensures doc.category.None? ==> t.category == ""
    ensures doc.priority.None? ==> t.priority == 3
    ensures doc.estimatedHours.None? ==> t.estimatedHours == 0.0
    ensures doc.energyLevel.None? ==> t.energyLevel == "medium"
    ensures doc.status.None? ==> t.status == "todo"
    ensures doc.title.Some? ==> t.title == doc.title.value
    ensures doc.status.Some? ==> t.status == doc.status.value
    ensures doc.priority.Some? ==> t.priority == doc.priority.value
    ensures doc.category.Some? ==> t.category == doc.category.value
    ensures doc.estimatedHours.Some? ==> t.estimatedHours == doc.estimatedHours.value
    ensures doc.energyLevel.Some? ==> t.energyLevel == doc.energyLevel.value
  {
    Task(
      doc.id,
      doc.title.GetOr(""),
      doc.category.GetOr(""),
      doc.priority.GetOr(DefaultPriority),
      doc.deadline,
      doc.estimatedHours.GetOr(0.0),
      doc.energyLevel.GetOr(DefaultEnergy),
      doc.status.GetOr(DefaultStatus))
  }
}
