/** The change detector in front of every re-render: it remembers the last
    observed song-list and current-song texts and lets a render through only
    when one of them differs. */
module ChangeGate {

  /** A value read from the shared key-value store; a key may be missing. */
  datatype Stored = Absent | Present(text: string)

  /** `localStorage.getItem(key) || ''`: a missing key reads as the empty text. */
  function ReadStored(v: Stored): string {
    match v
    case Absent => []
    case Present(t) => t
  }

  /** The last observed values (`STATE.lastSungSongs`, `STATE.lastCurrentSong`). */
  datatype Gate = Gate(lastSung: string, lastCurrent: string)

  /** Both remembered values start as the empty text. */
  const Initial: Gate := Gate([], [])

  /** The outcome of one observation: the updated gate and whether the
      render pipeline runs. */
  datatype Observation = Observation(gate: Gate, render: bool)

  /** The comparison at the top of `updateDisplay`. A render happens iff
      either text differs from the remembered one; afterwards the gate
      remembers exactly the observed texts. */
  function Observe(g: Gate, sung: string, current: string): (o: Observation)
    ensures o.render <==> sung != g.lastSung || current != g.lastCurrent
    ensures o.gate.lastSung == sung && o.gate.lastCurrent == current
  {
    if sung != g.lastSung || current != g.lastCurrent then Observation(Gate(sung, current), true)
    else Observation(g, false)
  }

  /** Observing the same texts a second time is a no-op. */
  lemma ObserveIdempotent(g: Gate, sung: string, current: string)
    ensures var o := Observe(g, sung, current);
      Observe(o.gate, sung, current) == Observation(o.gate, false)
  {
  }

  /** With nothing stored the very first observation renders nothing. */
  lemma NothingStoredRendersNothing()
    ensures !Observe(Initial, ReadStored(Absent), ReadStored(Absent)).render
  {
  }
}
