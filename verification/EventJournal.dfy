/**
 The bounded event journal of the local API server: an append-only numbered history of which only
 the newest events are retained, limited by count and by bytes.
 */
module EventJournal {

  const EVENT_BUFFER_LIMIT := 128

  /** One published event. `bytes` is the encoded size of its frame. */
  datatype Event = Event(number: nat, kind: string, data: string, bytes: nat)

  datatype Journal = Journal(events: seq<Event>, bytes: nat, sequence: nat)

  function TotalBytes(events: seq<Event>): nat {
    if events == [] then 0 else events[0].bytes + TotalBytes(events[1..])
  }

  predicate Fits(events: seq<Event>, maxBytes: nat) {
    |events| <= EVENT_BUFFER_LIMIT && TotalBytes(events) <= maxBytes
  }

  /** The retained part: the oldest events go until both limits hold. */
  function Trim(events: seq<Event>, maxBytes: nat): seq<Event> {
    if Fits(events, maxBytes) then events
    else if events == [] then []
    else Trim(events[1..], maxBytes)
  }

  function Append(journal: Journal, kind: string, data: string, bytes: nat, maxBytes: nat): Journal {
    var event := Event(journal.sequence + 1, kind, data, bytes);
    var kept := Trim(journal.events + [event], maxBytes);
    Journal(kept, TotalBytes(kept), event.number)
  }

  /** Everything ever published, numbered from 1. */
  ghost predicate Numbered(published: seq<Event>) {
    forall i :: 0 <= i < |published| ==> published[i].number == i + 1
  }

  /** The journal is the tail of the history it stands for, within both limits, with a true byte count. */
  ghost predicate Retains(journal: Journal, published: seq<Event>, maxBytes: nat) {
    && journal.sequence == |published|
    && |journal.events| <= |published|
    && journal.events == published[|published| - |journal.events|..]
    && journal.bytes == TotalBytes(journal.events)
    && Fits(journal.events, maxBytes)
  }

  lemma {:induction false} TotalBytesSuffix(events: seq<Event>, k: nat)
    requires k <= |events|
    ensures TotalBytes(events[k..]) <= TotalBytes(events)
  {
    if k > 0 {
      TotalBytesSuffix(events[1..], k - 1);
      assert events[1..][k - 1..] == events[k..];
    } else {
      assert events[0..] == events;
    }
  }

  /**
   Trimming keeps a suffix that fits, and the longest one: every longer suffix breaks a limit. An
   event larger than the byte limit therefore empties the journal.
   */
  lemma {:induction false} TrimIsLongestFit(events: seq<Event>, maxBytes: nat)
    ensures var kept := Trim(events, maxBytes);
            && |kept| <= |events|
            && kept == events[|events| - |kept|..]
            && Fits(kept, maxBytes)
            && forall k :: 0 <= k < |events| - |kept| ==> !Fits(events[k..], maxBytes)
  {
    if !Fits(events, maxBytes) && events != [] {
      TrimIsLongestFit(events[1..], maxBytes);
      var kept := Trim(events, maxBytes);
      forall k | 0 <= k < |events| - |kept|
        ensures !Fits(events[k..], maxBytes)
      {
        if k == 0 {
          assert events[0..] == events;
        } else {
          assert events[k..] == events[1..][k - 1..];
        }
      }
    }
  }

  lemma SuffixExtends(published: seq<Event>, events: seq<Event>, event: Event, kept: nat)
    requires |events| <= |published| && events == published[|published| - |events|..]
    requires kept <= |events| + 1
    ensures (events + [event])[|events| + 1 - kept..] == (published + [event])[|published| + 1 - kept..]
  {}

  /** Publishing keeps the journal a retained tail of the history extended by exactly the new event. */
  lemma AppendRetains(journal: Journal, published: seq<Event>, kind: string, data: string, bytes: nat, maxBytes: nat)
    requires Numbered(published) && Retains(journal, published, maxBytes)
    ensures var next := Append(journal, kind, data, bytes, maxBytes);
            var history := published + [Event(|published| + 1, kind, data, bytes)];
            Numbered(history) && Retains(next, history, maxBytes)
  {
    hide Trim, TotalBytes, Fits;
    var event := Event(|published| + 1, kind, data, bytes);
    var all := journal.events + [event];
    TrimIsLongestFit(all, maxBytes);
    SuffixExtends(published, journal.events, event, |Trim(all, maxBytes)|);
  }
}
