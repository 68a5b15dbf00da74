/** The interview server's database, reduced to what the endpoints use: the
    interviews table keyed by an auto-incremented id, and each interview's
    turns in the order they were committed. The turns table's foreign key
    to the interviews table is enforced: a turn for an unknown interview is refused. */
module TurnStore {
  import opened Domain

  /** A row of the interviews table; `status` defaults to "started". */
  datatype Interview = Interview(role: string, resumeText: string, status: string)

  class Database {
    var interviews: map<int, Interview>
    var turns: map<int, seq<Turn>>
    var nextId: int

    /** Ids are handed out from `nextId` upwards, and every logged turn
        belongs to an existing interview. */
    ghost predicate Valid()
      reads this
    {
      && 1 <= nextId
      && (forall id :: id in interviews ==> id < nextId)
      && (forall id :: id in turns ==> id in interviews)
    }

    /** The turns of one interview, in commit order (none for an id without turns). */
    function Log(id: int): seq<Turn>
      reads this
    {
      if id in turns then turns[id] else []
    }

    constructor ()
      ensures Valid() && interviews == map[] && turns == map[]
    {
      interviews := map[];
      turns := map[];
      nextId := 1;
    }

    /** Insert and commit an interview row; its id is the next free one. */
    method AddInterview(role: string, resumeText: string) returns (id: int)
      requires Valid()
      modifies this
      ensures Valid()
      ensures id == old(nextId) && id !in old(interviews) && nextId == id + 1
      ensures interviews == old(interviews)[id := Interview(role, resumeText, "started")]
      ensures turns == old(turns) && Log(id) == []
    {
      id := nextId;
      interviews := interviews[id := Interview(role, resumeText, "started")];
      nextId := nextId + 1;
    }

    /** Insert and commit one turn of interview `id`; refused when there is no
        such interview. */
    method AddTurn(id: int, turn: Turn) returns (ok: bool)
      requires Valid()
      modifies this
      ensures Valid()
      ensures ok <==> id in interviews
      ensures interviews == old(interviews) && nextId == old(nextId)
      ensures turns == if ok then old(turns)[id := old(Log(id)) + [turn]] else old(turns)
    {
      ok := id in interviews;
      if ok {
        turns := turns[id := Log(id) + [turn]];
      }
    }
  }
}
