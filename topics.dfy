/** The admin topic store (`src/app/api/admin/topics/route.ts`): a list of
    chat topics kept in `content/topics.json`, listed by GET, appended to by
    POST, updated by id by PUT and filtered by id by DELETE. */
module Topics {
  import opened Wrappers
  import opened JsString

  datatype Message = Message(role: string, content: string)

  /** A stored topic. `title` is whatever the creating request sent, which
      may be nothing. */
  datatype Topic = Topic(id: string, title: Option<string>, context: string, messages: seq<Message>,
                         createdAt: string, updatedAt: string)

  /** `content/topics.json`: absent, holding a topic list, or not parsable
      as one (so `JSON.parse` throws). */
  datatype TopicsFile = Missing | Holds(topics: seq<Topic>) | Unreadable

  /** The fields of a POST or PUT body; `None` is `undefined` or `null`. */
  datatype TopicBody = TopicBody(id: Option<string>, title: Option<string>, context: Option<string>,
                                 messages: Option<seq<Message>>)

  /** What a handler answers. */
  datatype Response =
    | Listed(topics: seq<Topic>)
    | Created(topic: Topic)
    | Changed(topic: Topic)
    | Deleted
    | Failed(status: int, error: string)
    | Thrown

  /** `getTopics()`: a missing file is the empty list; `None` when it throws. */
  function ReadTopics(file: TopicsFile): (topics: Option<seq<Topic>>)
    ensures file.Missing? ==> topics == Some([])
    ensures topics.None? <==> file.Unreadable?
    ensures file.Holds? ==> topics == Some(file.topics)
  {
    match file
    case Missing => Some([])
    case Holds(ts) => Some(ts)
    case Unreadable => None
  }

  // ---------------------------------------------------------------------
  // The list operations the handlers perform

  /** The topic POST creates: `id` is `Date.now().toString()`, both stamps
      are `new Date().toISOString()`, context and messages default to empty. */
  function NewTopic(body: TopicBody, nowMs: nat, nowIso: string): (t: Topic)
    ensures t.id == NatToString(nowMs) && t.title == body.title
    ensures t.createdAt == nowIso && t.updatedAt == nowIso
    ensures body.context.None? || body.context.value == "" ==> t.context == ""
    ensures body.context.Some? ==> t.context == body.context.value
    ensures body.messages.None? ==> t.messages == []
    ensures body.messages.Some? ==> t.messages == body.messages.value
  {
    Topic(NatToString(nowMs), body.title,
          if body.context.Some? && body.context.value != "" then body.context.value else "",
          body.messages.GetOr([]), nowIso, nowIso)
  }

  /** POST's new list: the old one with the new topic at the end. */
  function Appended(topics: seq<Topic>, t: Topic): (r: seq<Topic>)
    ensures |r| == |topics| + 1 && r[..|topics|] == topics && r[|topics|] == t
  {
    topics + [t]
  }

  /** `topics.findIndex(t => t.id === id)`. */
  function FindIndex(topics: seq<Topic>, id: string): (i: int)
    ensures -1 <= i < |topics|
    ensures i == -1 <==> forall j :: 0 <= j < |topics| ==> topics[j].id != id
    ensures i != -1 ==> topics[i].id == id && forall j :: 0 <= j < i ==> topics[j].id != id
  {
    if topics == [] then -1
    else if topics[0].id == id then 0
    else
      var k := FindIndex(topics[1..], id);
      if k == -1 then -1 else k + 1
  }

  /** `{...t, title: title ?? t.title, …, updatedAt: now}`: `??` replaces a
      field only when the body gives one, even an empty one. */
  function Revised(t: Topic, body: TopicBody, nowIso: string): Topic {
    t.(title := if body.title.Some? then body.title else t.title,
       context := body.context.GetOr(t.context),
       messages := body.messages.GetOr(t.messages),
       updatedAt := nowIso)
  }

  /** A revision keeps the id and the creation stamp and refreshes the update stamp. */
  lemma RevisedKeepsIdentity(t: Topic, body: TopicBody, nowIso: string)
    ensures var r := Revised(t, body, nowIso);
      r.id == t.id && r.createdAt == t.createdAt && r.updatedAt == nowIso
      && (body.title.None? ==> r.title == t.title) && (body.title.Some? ==> r.title == body.title)
      && (body.context.None? ==> r.context == t.context) && (body.context.Some? ==> r.context == body.context.value)
      && (body.messages.None? ==> r.messages == t.messages)
      && (body.messages.Some? ==> r.messages == body.messages.value)
  {
  }

  /** `t => t.id !== id`. */
  function KeepsOther(id: string): Topic -> bool {
    (t: Topic) => t.id != id
  }

  /** DELETE's new list: `topics.filter(t => t.id !== id)`. */
  function Without(topics: seq<Topic>, id: string): seq<Topic> {
    Filter(topics, KeepsOther(id))
  }

  /** How many topics carry `id`. */
  function CountId(topics: seq<Topic>, id: string): nat {
    if topics == [] then 0
    else CountId(topics[..|topics| - 1], id) + (if topics[|topics| - 1].id == id then 1 else 0)
  }

  /** Deleting removes exactly the topics with that id, one for each, and
      keeps every other topic in its order. */
  lemma {:induction false} WithoutRemovesMatches(topics: seq<Topic>, id: string)
    ensures |Without(topics, id)| == |topics| - CountId(topics, id)
    ensures forall t :: t in Without(topics, id) <==> t in topics && t.id != id
    ensures Subsequence(Without(topics, id), topics)
    decreases |topics|
  {
    if topics != [] {
      var init, last := topics[..|topics| - 1], topics[|topics| - 1];
      WithoutRemovesMatches(init, id);
      assert topics == init + [last];
      FilterSnoc(init, last, KeepsOther(id));
    }
    forall t ensures t in Without(topics, id) <==> t in topics && t.id != id {
      FilterMembers(topics, KeepsOther(id), t);
    }
    FilterKeepsOrder(topics, KeepsOther(id));
  }

  /** An id nobody has deletes nothing. */
  lemma {:induction false} WithoutUnknownId(topics: seq<Topic>, id: string)
    requires forall j :: 0 <= j < |topics| ==> topics[j].id != id
    ensures Without(topics, id) == topics
    decreases |topics|
  {
    if topics != [] {
      var init, last := topics[..|topics| - 1], topics[|topics| - 1];
      WithoutUnknownId(init, id);
      assert topics == init + [last];
      FilterSnoc(init, last, KeepsOther(id));
    }
  }

  /** PUT's new list: only the first topic with the id is revised, the
      others stay where they are, unchanged. */
  lemma UpdateFirstOnly(topics: seq<Topic>, body: TopicBody, id: string, nowIso: string)
    requires FindIndex(topics, id) != -1
    ensures var i := FindIndex(topics, id);
      var r := topics[i := Revised(topics[i], body, nowIso)];
      |r| == |topics| && r[i].id == id && r[i].createdAt == topics[i].createdAt
      && (forall j :: 0 <= j < |topics| && j != i ==> r[j] == topics[j])
      && (forall j :: 0 <= j < i ==> topics[j].id != id)
  {
  }

  /** The `findIndex` loop. */
  method IndexOf(topics: seq<Topic>, id: string) returns (index: int)
    ensures index == FindIndex(topics, id)
  {
    index := 0;
    while index < |topics| && topics[index].id != id
      invariant 0 <= index <= |topics|
      invariant forall j :: 0 <= j < index ==> topics[j].id != id
      invariant FindIndex(topics, id) == -1 || index <= FindIndex(topics, id)
    {
      index := index + 1;
    }
    if index == |topics| {
      index := -1;
    }
  }

  // ---------------------------------------------------------------------
  // The handlers, over the file

  class TopicStore {
    /** The state of `content/topics.json`. */
    var file: TopicsFile

    constructor(file: TopicsFile)
      ensures this.file == file
    {
      this.file := file;
    }

    /** `GET`: the stored list; an unparsable file makes the handler throw. */
    method Get() returns (r: Response)
      ensures ReadTopics(file).Some? ==> r == Listed(ReadTopics(file).value)
      ensures ReadTopics(file).None? ==> r == Thrown
    {
      var topics := ReadTopics(file);
      if topics.None? {
        return Thrown;
      }
      return Listed(topics.value);
    }

    /** `POST` with the parsed request body (`None` when `request.json()`
        throws): the new topic is appended and the list saved. */
    method Post(body: Option<TopicBody>, nowMs: nat, nowIso: string) returns (r: Response)
      modifies this
      ensures var before := ReadTopics(old(file));
        if body.None? || before.None? then
          r == Failed(500, "Failed to create topic") && file == old(file)
        else
          r == Created(NewTopic(body.value, nowMs, nowIso))
          && file == Holds(Appended(before.value, NewTopic(body.value, nowMs, nowIso)))
    {
      if body.None? {
        return Failed(500, "Failed to create topic");
      }
      var topics := ReadTopics(file);
      if topics.None? {
        return Failed(500, "Failed to create topic");
      }
      var newTopic := NewTopic(body.value, nowMs, nowIso);
      var list := topics.value;
      list := list + [newTopic];
      file := Holds(list);
      return Created(newTopic);
    }

    /** `PUT`: revise the first topic with the body's id; an unknown (or
        missing) id is a 404 and nothing is written. */
    method Put(body: Option<TopicBody>, nowIso: string) returns (r: Response)
      modifies this
      ensures var before := ReadTopics(old(file));
        if body.None? || before.None? then
          r == Failed(500, "Failed to update topic") && file == old(file)
        else if body.value.id.None? || FindIndex(before.value, body.value.id.value) == -1 then
          r == Failed(404, "Topic not found") && file == old(file)
        else
          var i := FindIndex(before.value, body.value.id.value);
          var t := Revised(before.value[i], body.value, nowIso);
          r == Changed(t) && file == Holds(before.value[i := t])
    {
      if body.None? {
        return Failed(500, "Failed to update topic");
      }
      var topics := ReadTopics(file);
      if topics.None? {
        return Failed(500, "Failed to update topic");
      }
      if body.value.id.None? {
        return Failed(404, "Topic not found");
      }
      var list := topics.value;
      var index := IndexOf(list, body.value.id.value);
      if index == -1 {
        return Failed(404, "Topic not found");
      }
      list := list[index := Revised(list[index], body.value, nowIso)];
      file := Holds(list);
      return Changed(list[index]);
    }

    /** `DELETE ?id=…`: without an id (or with an empty one) a 400; else
        every topic with that id is dropped, which succeeds also when there
        is none. */
    method Delete(id: Option<string>) returns (r: Response)
      modifies this
      ensures id.None? || id.value == "" ==> r == Failed(400, "Topic ID required") && file == old(file)
      ensures id.Some? && id.value != "" && ReadTopics(old(file)).None? ==>
        r == Failed(500, "Failed to delete topic") && file == old(file)
      ensures id.Some? && id.value != "" && ReadTopics(old(file)).Some? ==>
        r == Deleted && file == Holds(Without(ReadTopics(old(file)).value, id.value))
    {
      if id.None? || id.value == "" {
        return Failed(400, "Topic ID required");
      }
      var topics := ReadTopics(file);
      if topics.None? {
        return Failed(500, "Failed to delete topic");
      }
      file := Holds(Without(topics.value, id.value));
      return Deleted;
    }
  }

  /** Topic counts: POST adds one, PUT keeps the count, DELETE takes away
      as many as carry the id. */
  lemma CountChanges(topics: seq<Topic>, body: TopicBody, nowMs: nat, nowIso: string, id: string)
    ensures |Appended(topics, NewTopic(body, nowMs, nowIso))| == |topics| + 1
    ensures FindIndex(topics, id) != -1 ==>
      |topics[FindIndex(topics, id) := Revised(topics[FindIndex(topics, id)], body, nowIso)]| == |topics|
    ensures |Without(topics, id)| == |topics| - CountId(topics, id)
  {
    WithoutRemovesMatches(topics, id);
  }
}
