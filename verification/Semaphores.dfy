// A semaphore as its users see it: a value and a queue, first come first served.
module Semaphores {
  datatype View = View(value: int, queue: seq<int>)

  // P by p, which goes through exactly if the value is positive
  function Down(v: View, p: int): View {
    View(v.value - 1, if v.value >= 1 then v.queue else v.queue + [p])
  }

  // V, which lets the first of the queue go on
  function Up(v: View): View {
    View(v.value + 1, if v.queue == [] then [] else v.queue[1..])
  }
}
