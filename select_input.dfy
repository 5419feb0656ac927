/** The searchable select box: the option filter, the label on its button,
    and the open/closed flag its handlers flip. */
module SelectInput {
  import opened SeqUtil
  import opened JsString

  /** An option; `text` is the label shown for it (`label` in the option
      record). */
  datatype SelectOption = SelectOption(value: string, text: string)

  /** The button's text when no option carries the current value. */
  const Placeholder: string := "Select..."

  /** `filtered`: the options whose label contains the query, ignoring case. */
  function Filtered(options: seq<SelectOption>, query: string): seq<SelectOption>
  {
    Filter(options, (o: SelectOption) => Includes(Lower(o.text), Lower(query)))
  }

  /** The filter keeps the options' order, and keeps an option iff its label
      contains the query, as often as it occurs. */
  lemma FilteredSpec(options: seq<SelectOption>, query: string)
    ensures var r := Filtered(options, query);
      && IsSubseq(r, options)
      && (forall o :: o in r <==> o in options && Includes(Lower(o.text), Lower(query)))
      && (forall o | o in options && Includes(Lower(o.text), Lower(query)) :: multiset(r)[o] == multiset(options)[o])
  {
    var r := Filtered(options, query);
    FilterSubseq(options, (o: SelectOption) => Includes(Lower(o.text), Lower(query)));
    forall o | o in options && Includes(Lower(o.text), Lower(query)) ensures o in r {
      assert multiset(r)[o] == multiset(options)[o];
      assert o in multiset(options);
    }
  }

  /** An empty query shows every option. */
  lemma EmptyQueryKeepsAll(options: seq<SelectOption>)
    ensures Filtered(options, "") == options
  {
    forall o | o in options ensures Includes(Lower(o.text), Lower("")) {
      IncludesEmpty(Lower(o.text));
    }
    FilterAll(options, (o: SelectOption) => Includes(Lower(o.text), Lower("")));
  }

  /** "No options" is shown exactly when no label contains the query. */
  lemma NoOptionsIff(options: seq<SelectOption>, query: string)
    ensures Filtered(options, query) == [] <==>
      forall o | o in options :: !Includes(Lower(o.text), Lower(query))
  {
    FilterEmptyIff(options, (o: SelectOption) => Includes(Lower(o.text), Lower(query)));
  }

  /** The button's text: the label of the first option with the current
      value, or the placeholder. An absent value matches no option. */
  function ButtonLabel(options: seq<SelectOption>, value: Option<string>): string
  {
    match Find(options, HasValue(value))
    case Some(o) => o.text
    case None => Placeholder
  }

  /** `o.value === value`. */
  function HasValue(value: Option<string>): SelectOption -> bool
  {
    (o: SelectOption) => value == Some(o.value)
  }

  lemma ButtonLabelSpec(options: seq<SelectOption>, value: Option<string>)
    ensures (forall i | 0 <= i < |options| :: value != Some(options[i].value)) ==>
      ButtonLabel(options, value) == Placeholder
    ensures value.None? ==> ButtonLabel(options, value) == Placeholder
    ensures (exists i | 0 <= i < |options| :: value == Some(options[i].value)) ==>
      exists i | 0 <= i < |options| ::
        && value == Some(options[i].value)
        && (forall j | 0 <= j < i :: value != Some(options[j].value))
        && ButtonLabel(options, value) == options[i].text
  {
    var f := Find(options, HasValue(value));
    if f.Some? {
      var i :| 0 <= i < |options| && options[i] == f.value && HasValue(value)(options[i]) &&
        forall j | 0 <= j < i :: !HasValue(value)(options[j]);
      assert ButtonLabel(options, value) == options[i].text;
    }
  }

  /** The dropdown's state cells. */
  class Select {
    var open: bool
    var query: string

    constructor ()
      ensures !open && query == ""
    {
      open, query := false, "";
    }

    /** The options listed: none while closed, the filtered ones while open. */
    function Listed(options: seq<SelectOption>): seq<SelectOption>
      reads this
    {
      if open then Filtered(options, query) else []
    }

    /** A click on the button flips the flag. */
    method ClickButton()
      modifies this`open
      ensures open == !old(open)
    {
      open := !open;
    }

    /** Typing in the search box. */
    method SetQuery(q: string)
      modifies this`query
      ensures query == q
    {
      query := q;
    }

    /** A click on a listed option: reports its value to `onChange` and
        closes the list; the query is kept. */
    method Choose(options: seq<SelectOption>, o: SelectOption) returns (changed: string)
      requires o in Listed(options)
      modifies this`open
      ensures changed == o.value && !open && Listed(options) == []
    {
      changed := o.value;
      open := false;
    }

    /** A click anywhere in the document: outside the component it closes
        the list, inside it changes nothing. */
    method DocumentClick(inside: bool)
      modifies this`open
      ensures open == (old(open) && inside)
    {
      if !inside {
        open := false;
      }
    }
  }
}
