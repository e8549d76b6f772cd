/** The request-building rules of planka_api.py: the JSON bodies the
    migration sends, the guards that refuse a missing parent id before any
    request is made, the answers that count as success, the cover payload
    and the comment footer. Sending the requests is not modelled: a
    `Request` value is what would be sent. */
module PlankaApi {
  import opened Wrappers
  import opened Text

  /** The JSON values that occur in the bodies. */
  datatype Json = JNull | JBool(b: bool) | JInt(i: int) | JString(s: string)

  type Payload = map<string, Json>

  /** A request: its path below the Planka base URL and its JSON body. */
  datatype Request = Request(path: string, payload: Payload)

  /** A server answer: the status code and the id of the `item` it
      returned, if it returned one. */
  datatype Response = Response(status: int, item: Option<string>)

  /** Python truthiness of an optional string: present and not empty. */
  predicate Truthy(s: Option<string>) {
    s.Some? && s.value != ""
  }

  /** `create_project`: no guard, a fixed description, never public. */
  function CreateProject(name: string): (r: Request)
    ensures r.payload.Keys == {"name", "description", "isPublic"}
    ensures r.payload["name"] == JString(name) && r.payload["isPublic"] == JBool(false)
    ensures r.path == "/projects" && r.payload["description"] == JString("Imported from Trello")
  {
    Request("/projects", map["name" := JString(name), "description" := JString("Imported from Trello"), "isPublic" := JBool(false)])
  }

  /** `create_board`: a falsy project id raises ValueError before any
      request; otherwise a board at position 0 under that project. */
  function CreateBoard(projectId: Option<string>, name: string): (r: Result<Request, string>)
    ensures r.Failure? <==> !Truthy(projectId)
    ensures r.Success? ==>
      && r.value.path == "/projects/" + projectId.value + "/boards"
      && r.value.payload.Keys == {"name", "position", "isPublic"}
      && r.value.payload["name"] == JString(name) && r.value.payload["position"] == JInt(0)
      && r.value.payload["isPublic"] == JBool(false)
  {
    if !Truthy(projectId) then
      Failure("Error: project_id is empty, board cannot be created!")
    else
      Success(Request("/projects/" + projectId.value + "/boards",
        map["name" := JString(name), "position" := JInt(0), "isPublic" := JBool(false)]))
  }

  /** `create_list`: a falsy board id raises ValueError before any request;
      otherwise a list at position 0 that names its board. */
  function CreateList(boardId: Option<string>, name: string): (r: Result<Request, string>)
    ensures r.Failure? <==> !Truthy(boardId)
    ensures r.Success? ==>
      && r.value.path == "/boards/" + boardId.value + "/lists"
      && r.value.payload.Keys == {"name", "position", "boardId"}
      && r.value.payload["boardId"] == JString(boardId.value) && r.value.payload["position"] == JInt(0)
      && r.value.payload["name"] == JString(name)
  {
    if !Truthy(boardId) then
      Failure("Error: board_id is empty, list could not be created!")
    else
      Success(Request("/boards/" + boardId.value + "/lists",
        map["name" := JString(name), "position" := JInt(0), "boardId" := JString(boardId.value)]))
  }

  /** `create_card`: a falsy list id raises ValueError before any request.
      The body always has the name, position 0, the list id and the
      completed flag; the due date and the description are added only when
      they are truthy. */
  function CreateCard(listId: Option<string>, name: string, description: Option<string>,
                      dueDate: Option<string>, completed: bool): (r: Result<Request, string>)
    ensures r.Failure? <==> !Truthy(listId)
    ensures r.Success? ==>
      var p := r.value.payload;
      && r.value.path == "/lists/" + listId.value + "/cards"
      && {"name", "position", "listId", "isDueDateCompleted"} <= p.Keys
      && p["name"] == JString(name) && p["position"] == JInt(0)
      && p["listId"] == JString(listId.value) && p["isDueDateCompleted"] == JBool(completed)
      && ("dueDate" in p <==> Truthy(dueDate))
      && ("description" in p <==> Truthy(description))
      && (Truthy(dueDate) ==> p["dueDate"] == JString(dueDate.value))
      && (Truthy(description) ==> p["description"] == JString(description.value))
      && p.Keys <= {"name", "position", "listId", "isDueDateCompleted", "dueDate", "description"}
  {
    if !Truthy(listId) then
      Failure("Error: list_id is empty, card cannot be created!")
    else
      var payload := map["name" := JString(name), "position" := JInt(0),
                          "listId" := JString(listId.value), "isDueDateCompleted" := JBool(completed)];
      var withDue := if Truthy(dueDate) then payload["dueDate" := JString(dueDate.value)] else payload;
      var withDescription := if Truthy(description) then withDue["description" := JString(description.value)] else withDue;
      Success(Request("/lists/" + listId.value + "/cards", withDescription))
  }

  /** `create_task`: a falsy card id raises ValueError before any request;
      otherwise a task at position 0 carrying its completed state. */
  function CreateTask(cardId: Option<string>, name: string, isCompleted: bool): (r: Result<Request, string>)
    ensures r.Failure? <==> !Truthy(cardId)
    ensures r.Success? ==>
      && r.value.path == "/cards/" + cardId.value + "/tasks"
      && r.value.payload.Keys == {"cardId", "name", "isCompleted", "position"}
      && r.value.payload["isCompleted"] == JBool(isCompleted) && r.value.payload["position"] == JInt(0)
      && r.value.payload["cardId"] == JString(cardId.value) && r.value.payload["name"] == JString(name)
  {
    if !Truthy(cardId) then
      Failure("Error: card_id is empty, task cannot be created!")
    else
      Success(Request("/cards/" + cardId.value + "/tasks",
        map["cardId" := JString(cardId.value), "name" := JString(name),
            "isCompleted" := JBool(isCompleted), "position" := JInt(0)]))
  }

  /** `create_label` request: no guard; the board id, position 0 and the
      colour always, the name only when it is not blank. A blank name is
      left out of the body, not sent as an empty string. */
  function CreateLabelRequest(boardId: string, name: string, color: string): (r: Request)
    ensures {"boardId", "position", "color"} <= r.payload.Keys <= {"boardId", "position", "color", "name"}
    ensures r.payload["color"] == JString(color) && r.payload["position"] == JInt(0)
    ensures "name" in r.payload <==> Strip(name) != ""
    ensures "name" in r.payload ==> r.payload["name"] == JString(name)
    ensures r.path == "/boards/" + boardId + "/labels" && r.payload["boardId"] == JString(boardId)
  {
    var payload := map["boardId" := JString(boardId), "position" := JInt(0), "color" := JString(color)];
    Request("/boards/" + boardId + "/labels",
      if Strip(name) != "" then payload["name" := JString(name)] else payload)
  }

  /** The answer rule shared by `create_label` and `add_label_to_card`: the
      returned item on status 200 or 201, None on any other status (no
      exception is raised). */
  function ItemOnSuccess(response: Response): (r: Option<string>)
    ensures r.Some? ==> response.status == 200 || response.status == 201
    ensures (response.status == 200 || response.status == 201) ==> r == response.item
  {
    if response.status == 200 || response.status == 201 then response.item else None
  }

  /** `add_label_to_card` request. */
  function AddLabelToCardRequest(cardId: string, labelId: string): (r: Request)
    ensures r.payload == map["labelId" := JString(labelId)]
    ensures r.path == "/cards/" + cardId + "/labels"
  {
    Request("/cards/" + cardId + "/labels", map["labelId" := JString(labelId)])
  }

  /** `update_card_cover` body: a falsy cover id (absent or empty) is sent
      as null, which clears the cover; any other id is sent as it is. */
  function CoverPayload(coverAttachmentId: Option<string>): (r: Payload)
    ensures r.Keys == {"coverAttachmentId"}
    ensures r["coverAttachmentId"] == JNull <==> !Truthy(coverAttachmentId)
    ensures Truthy(coverAttachmentId) ==> r["coverAttachmentId"] == JString(coverAttachmentId.value)
  {
    map["coverAttachmentId" := if Truthy(coverAttachmentId) then JString(coverAttachmentId.value) else JNull]
  }

  /** The footer `add_comment` appends between the comment text and the
      author. */
  const CommentFooter: string := "\n\n---\n*Imported comment from Trello, originally posted by*  \n"

  /** `add_comment` text: the original text, the footer, the author's name
      and user name, then the date as `formatDate` renders it, or the raw
      date string when parsing it fails. */
  function CommentText(text: string, authorName: string, authorUsername: string, date: string,
                       formatDate: string -> Option<string>): (r: string)
    ensures var shown := formatDate(date).GetOr(date);
      && |r| == |text| + |CommentFooter| + |authorName| + 2 + |authorUsername| + 4 + |shown|
      && r[..|text|] == text
      && r[|text|..|text| + |CommentFooter|] == CommentFooter
      && r[|text| + |CommentFooter|..|text| + |CommentFooter| + |authorName| + 2] == authorName + " ("
      && r[|r| - |shown|..] == shown
      && r[|r| - |shown| - 4 - |authorUsername|..|r| - |shown|] == authorUsername + ")  \n"
  {
    var formatted := match formatDate(date) case Some(d) => d case None => date;
    text + CommentFooter + authorName + " (" + authorUsername + ")  \n" + formatted
  }

  /** Two imported comments with the same author and date differ exactly
      when their original texts differ: the text is kept verbatim. */
  lemma CommentTextKeepsOriginal(t1: string, t2: string, authorName: string, authorUsername: string,
                                 date: string, formatDate: string -> Option<string>)
    requires CommentText(t1, authorName, authorUsername, date, formatDate)
          == CommentText(t2, authorName, authorUsername, date, formatDate)
    ensures t1 == t2
  {
    var r := CommentText(t1, authorName, authorUsername, date, formatDate);
    assert |t1| == |t2|;
    assert t1 == r[..|t1|] == t2;
  }
}
