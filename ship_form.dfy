/** The `ShipForm` component (frontend/src/components/ShipForm.jsx): the draft
    record it edits and the handlers that update it. The record type is the
    shape of a ship object on the frontend, shared with the `App` component. */
module ShipFormComponent {
  import opened Wrappers

  /** The value of a form input. `launch_year` arrives from the backend as a
      number and becomes the text of the number input once edited; the other
      fields are always text. */
  datatype Value = Number(n: int) | Text(s: string)

  /** A ship object on the frontend. A record created in the form has no `id`
      until `App` gives it one. (`type` is a Dafny keyword, hence `shipType`.) */
  datatype Ship = Ship(
    id: Option<string>,
    name: string,
    shipType: string,
    launchYear: Value,
    country: string,
    length: string,
    notableEvents: seq<string>)

  /** The `name` attributes of the form's inputs. */
  datatype Field = Name | ShipType | LaunchYear | Country | Length

  /** What the input named `f` shows. */
  function FieldOf(d: Ship, f: Field): Value {
    match f
    case Name => Text(d.name)
    case ShipType => Text(d.shipType)
    case LaunchYear => d.launchYear
    case Country => Text(d.country)
    case Length => Text(d.length)
  }

  /** The blank record of a form opened without a ship. */
  const Blank := Ship(None, "", "", Text(""), "", "", [""])

  /** `useState(ship || {...})`: the given ship, or the blank record. */
  function InitialFormData(ship: Option<Ship>): (d: Ship)
    ensures ship.Some? ==> d == ship.value
    ensures ship.None? ==> d.id.None? && d.notableEvents == [""]
    ensures ship.None? ==> forall f :: FieldOf(d, f) == Text("")
  {
    if ship.Some? then ship.value else Blank
  }

  /** `{ ...prev, [name]: value }`: the input `f` now holds `value`. */
  function SetField(d: Ship, f: Field, value: string): (r: Ship)
    ensures FieldOf(r, f) == Text(value)
    ensures forall g :: g != f ==> FieldOf(r, g) == FieldOf(d, g)
    ensures r.id == d.id && r.notableEvents == d.notableEvents
  {
    match f
    case Name => d.(name := value)
    case ShipType => d.(shipType := value)
    case LaunchYear => d.(launchYear := Text(value))
    case Country => d.(country := value)
    case Length => d.(length := value)
  }

  /** `events.filter((_, i) => i !== index)`, walking the positions from the end. */
  function DropIndex(events: seq<string>, index: nat): (r: seq<string>)
    ensures index < |events| ==> r == events[..index] + events[index + 1..]
    ensures index >= |events| ==> r == events
  {
    if events == [] then []
    else
      var init, last := events[..|events| - 1], events[|events| - 1];
      if index == |events| - 1 then init
      else
        var rest := DropIndex(init, index);
        assert index < |init| ==> events[index + 1..] == init[index + 1..] + [last];
        rest + [last]
  }

  class ShipForm {
    /** `formData`. */
    var formData: Ship

    constructor (ship: Option<Ship>)
      ensures formData == InitialFormData(ship)
    {
      formData := InitialFormData(ship);
    }

    /** `handleChange`: the named input takes the typed text; nothing else changes. */
    method HandleChange(field: Field, value: string)
      modifies this
      ensures formData == SetField(old(formData), field, value)
    {
      formData := SetField(formData, field, value);
    }

    /** `handleEventChange`: copies the events into a fresh array, overwrites the
        one at `index` and stores the copy. The component only calls it with the
        position of an event it renders. */
    method HandleEventChange(index: nat, value: string)
      requires index < |formData.notableEvents|
      modifies this
      ensures formData == old(formData).(notableEvents := old(formData).notableEvents[index := value])
    {
      var events := formData.notableEvents;
      var newEvents := new string[|events|](i requires 0 <= i < |events| => events[i]);
      newEvents[index] := value;
      formData := formData.(notableEvents := newEvents[..]);
    }

    /** The remove button of the event at `index`. */
    method RemoveEvent(index: nat)
      modifies this
      ensures formData == old(formData).(notableEvents := DropIndex(old(formData).notableEvents, index))
    {
      formData := formData.(notableEvents := DropIndex(formData.notableEvents, index));
    }

    /** "Add Event": one more, empty, event at the end. */
    method AddEvent()
      modifies this
      ensures formData == old(formData).(notableEvents := old(formData).notableEvents + [""])
    {
      formData := formData.(notableEvents := formData.notableEvents + [""]);
    }

    /** `handleSubmit`: hands the current draft to `onSubmit` as it is. */
    method HandleSubmit() returns (submitted: Ship)
      ensures submitted == formData
    {
      submitted := formData;
    }
  }
}
