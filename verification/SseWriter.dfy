/** The server's side of the stream: `writeSSEEvent` and `ServeSSE`. */
module SseWriter {
  import opened Wrappers

  /** A published event; `json` is what `json.Marshal` makes of its data, `None` when that fails. */
  datatype Event = Event(id: string, name: string, json: Option<string>)

  // ---------- the text ----------

  /** The optional type and id lines, written before the data is marshalled. */
  function Head(e: Event): string {
    NameLine(e.name) + IdLine(e.id)
  }

  function NameLine(name: string): string {
    if name != "" then "event: " + name + "\n" else ""
  }

  function IdLine(id: string): string {
    if id != "" then "id: " + id + "\n" else ""
  }

  function Body(json: string): string {
    "data: " + json + "\n" + "\n"
  }

  function Encode(e: Event): string
    requires e.json.Some?
  {
    Head(e) + Body(e.json.value)
  }

  predicate AllMarshal(es: seq<Event>) {
    forall e <- es :: e.json.Some?
  }

  function EncodeAll(es: seq<Event>): string
    requires AllMarshal(es)
  {
    if es == [] then "" else Encode(es[0]) + EncodeAll(es[1..])
  }

  const DONE_TEXT := "event: done" + "\n" + ("data: {}" + "\n" + "\n")

  /** An event as it goes out: its type and id lines when set, then its data line and a blank line. */
  lemma EventOnTheWire(e: Event)
    ensures var typed := if e.name == "" then "" else "event: " + e.name + "\n";
            && Head(e) == typed + (if e.id == "" then "" else "id: " + e.id + "\n")
            && (e.json.Some? ==> Encode(e) == Head(e) + ("data: " + e.json.value + "\n\n"))
  {
    assert e.json.Some? ==> Body(e.json.value) == "data: " + e.json.value + "\n\n";
  }

  /** The closing event as it goes out: a type line, a data line and a blank line. */
  lemma DoneOnTheWire()
    ensures DONE_TEXT == "event: done\ndata: {}\n\n"
  {
  }

  /** How the server left the stream: still open or cancelled, closed, or failed inside an event. */
  datatype Ending = Open | Closed | Broken(e: Event)

  function EndingText(ending: Ending): string {
    match ending
    case Open => ""
    case Closed => DONE_TEXT
    case Broken(e) => Head(e)
  }

  lemma {:induction false} EncodeAllAppend(es: seq<Event>, e: Event)
    requires AllMarshal(es) && e.json.Some?
    ensures AllMarshal(es + [e]) && EncodeAll(es + [e]) == EncodeAll(es) + Encode(e)
  {
    if es == [] {
      assert es + [e] == [e] && [e][1..] == [];
    } else {
      assert (es + [e])[1..] == es[1..] + [e];
      assert es[0] in es;
      EncodeAllAppend(es[1..], e);
    }
  }

  lemma EncodePrefix(before: string, supply: seq<Event>, n: nat)
    requires n < |supply| && AllMarshal(supply[..n]) && supply[n].json.Some?
    ensures AllMarshal(supply[..n + 1])
    ensures before + EncodeAll(supply[..n]) + Encode(supply[n]) == before + EncodeAll(supply[..n + 1])
  {
    assert supply[..n + 1] == supply[..n] + [supply[n]];
    EncodeAllAppend(supply[..n], supply[n]);
    Assoc(before, EncodeAll(supply[..n]), Encode(supply[n]));
  }

  lemma Assoc(a: string, b: string, c: string)
    ensures (a + b) + c == a + (b + c)
  {
  }

  // ---------- the code ----------

  class ResponseWriter {
    var body: string
    const flushes: bool

    constructor (flushes: bool)
      ensures body == "" && this.flushes == flushes
    {
      body := "";
      this.flushes := flushes;
    }

    method Print(s: string)
      modifies this`body
      ensures body == old(body) + s
    {
      body := body + s;
    }
  }

  /** On a marshalling error the type and id lines have already gone out. */
  method WriteSSEEvent(w: ResponseWriter, e: Event) returns (ok: bool)
    modifies w`body
    ensures ok == e.json.Some?
    ensures w.body == old(w.body) + if e.json.Some? then Encode(e) else Head(e)
  {
    ghost var before := w.body;
    if e.name != "" {
      w.Print("event: " + e.name + "\n");
    }
    assert w.body == before + NameLine(e.name);
    if e.id != "" {
      w.Print("id: " + e.id + "\n");
    }
    assert w.body == before + NameLine(e.name) + IdLine(e.id);
    assert before + NameLine(e.name) + IdLine(e.id) == before + Head(e);
    if e.json.None? {
      return false;
    }
    w.Print("data: " + e.json.value + "\n" + "\n");
    assert before + Head(e) + Body(e.json.value) == before + Encode(e);
    return true;
  }

  /**
   `ServeSSE` on a channel that will supply `supply` and then, when `closes`, be closed.  The
   select takes the cancelled context in round `cancelAt`; a channel that stays open keeps the
   handler waiting until the context is done.  `taken` counts the events written in full.
   */
  method ServeSSE(w: ResponseWriter, supply: seq<Event>, closes: bool, cancelAt: Option<nat>)
    returns (supported: bool, taken: nat, ending: Ending)
    modifies w`body
    ensures supported == w.flushes
    ensures !supported ==> taken == 0 && ending == Open
    ensures taken <= |supply| && AllMarshal(supply[..taken])
    ensures w.body == old(w.body) + (EncodeAll(supply[..taken]) + EndingText(ending))
    ensures ending.Broken? ==> taken < |supply| && ending.e == supply[taken] && ending.e.json.None?
    ensures ending == Closed ==> closes && taken == |supply|
    ensures supported && ending == Open ==> cancelAt == Some(taken) || (!closes && taken == |supply|)
    ensures supported && cancelAt.Some? ==> taken <= cancelAt.value
    ensures supported && cancelAt == Some(taken) ==> ending == Open
  {
    taken, ending := 0, Open;
    ghost var before := w.body;
    assert EncodeAll(supply[..0]) + EndingText(Open) == "";
    if !w.flushes {
      return false, 0, Open;
    }
    while true
      invariant taken <= |supply| && AllMarshal(supply[..taken])
      invariant cancelAt.Some? ==> taken <= cancelAt.value
      invariant w.body == before + EncodeAll(supply[..taken])
      decreases |supply| - taken
    {
      ghost var done := EncodeAll(supply[..taken]);
      if cancelAt == Some(taken) || (taken == |supply| && !closes) {
        Assoc(before, done, "");
        return true, taken, Open;
      }
      if taken == |supply| {
        w.Print("event: done" + "\n" + ("data: {}" + "\n" + "\n"));
        Assoc(before, done, DONE_TEXT);
        return true, taken, Closed;
      }
      assert cancelAt.Some? ==> taken + 1 <= cancelAt.value;
      var e := supply[taken];
      var ok := WriteSSEEvent(w, e);
      if !ok {
        Assoc(before, done, Head(e));
        return true, taken, Broken(e);
      }
      EncodePrefix(before, supply, taken);
      taken := taken + 1;
    }
  }
}
