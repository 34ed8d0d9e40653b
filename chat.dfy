/** What the session flows see of the chat connection: an inbound message,
    and the `setTimeout`/`clearTimeout` table that the expiry callbacks live
    in. A timer is armed with the value its callback closes over (the sender,
    and for a plugin with two session maps, which of them); clearing it
    disarms it; firing it runs the callback once. */
module Chat {
  import opened Js

  type Sender = string
  type MessageId = string

  /** An inbound message: its sender (`m.sender`), its text (`m.text`, empty
      when the message has none) and, when it is a reply, the id of the
      message it quotes (`m.quoted.id`). */
  datatype Message = Message(sender: Sender, text: string, quoted: Option<MessageId>)

  type TimerId = nat

  /** The pending timers: those armed and neither cleared nor fired yet.
      `next` is the id the next `setTimeout` hands out. */
  datatype Timers<K> = Timers(armed: map<TimerId, K>, next: TimerId) {
    ghost predicate Valid() {
      forall id :: id in armed ==> id < next
    }
  }

  function NoTimers<K>(): (t: Timers<K>)
    ensures t.Valid() && t.armed == map[]
  {
    Timers(map[], 0)
  }

  /** `setTimeout(callback, delay)`: arms a timer whose id no pending timer
      has. */
  function SetTimeout<K>(t: Timers<K>, k: K): (r: (Timers<K>, TimerId))
    requires t.Valid()
    ensures r.0.Valid()
    ensures r.1 !in t.armed
    ensures r.0.armed == t.armed[r.1 := k]
  {
    (Timers(t.armed[t.next := k], t.next + 1), t.next)
  }

  /** `clearTimeout(id)`: disarms the timer; clearing a timer that already
      fired or was cleared does nothing. */
  function ClearTimeout<K>(t: Timers<K>, id: TimerId): (r: Timers<K>)
    requires t.Valid()
    ensures r.Valid()
    ensures id !in r.armed
    ensures forall other :: other != id ==> (other in r.armed <==> other in t.armed)
    ensures forall other :: other in r.armed ==> r.armed[other] == t.armed[other]
  {
    Timers(t.armed - {id}, t.next)
  }
}
