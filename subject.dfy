/** A subject and the conditions their data were recorded under, keyed by
    condition name. */
module Subjects {
  import opened Wrappers
  import opened Dicts
  import opened Conditions

  class Subject {
    const subjectId: string
    var conditions: Dict<string, Condition>

    /** The dict is well formed and every condition is stored under its own
        name. */
    ghost predicate Valid()
      reads this
    {
      conditions.Valid() && forall c :: c in conditions.entries ==> conditions.entries[c].name == c
    }

    constructor (subjectId: string)
      ensures this.subjectId == subjectId && conditions == Empty() && Valid()
    {
      this.subjectId := subjectId;
      conditions := Empty();
    }

    /** `add_condition`: stores the condition under its name, replacing a
        condition of the same name. */
    method AddCondition(condition: Condition)
      requires Valid()
      modifies this
      ensures conditions == old(conditions).Put(condition.name, condition)
      ensures Valid()
      ensures GetCondition(condition.name) == Some(condition)
      ensures forall c :: c != condition.name ==> GetCondition(c) == old(GetCondition(c))
    {
      conditions := conditions.Put(condition.name, condition);
    }

    /** `get_condition`: the stored condition of that name, or None. */
    function GetCondition(name: string): (r: Option<Condition>)
      reads this
      ensures r.Some? ==> name in conditions.entries && r.value == conditions.entries[name]
      ensures Valid() ==> (r.Some? <==> name in conditions.keys)
      ensures Valid() && r.Some? ==> r.value.name == name
    {
      conditions.Get(name)
    }
  }
}
