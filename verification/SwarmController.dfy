/** The swarm controller's own state: a counter for sequence numbers and a map of
    the responses received, filed by number. */
module SwarmController {
  import opened Wrappers

  datatype Response = Response(status: int, text: string)

  datatype Controller = Controller(next: nat, responses: map<nat, Response>)

  function Issue(c: Controller): (nat, Controller) {
    (c.next, c.(next := c.next + 1))
  }

  function Record(c: Controller, number: nat, response: Response): Controller {
    c.(responses := c.responses[number := response])
  }

  function Lookup(c: Controller, number: nat): Option<Response> {
    if number in c.responses then Some(c.responses[number]) else None
  }

  class SwarmController {
    var sequenceNumber: nat
    var responseMap: map<nat, Response>

    ghost function View(): Controller
      reads this
    {
      Controller(sequenceNumber, responseMap)
    }

    constructor ()
      ensures View() == Controller(0, map[])
    {
      sequenceNumber := 0;
      responseMap := map[];
    }

    method GetSequenceNumber() returns (number: nat)
      modifies this`sequenceNumber
      ensures (number, View()) == Issue(old(View()))
      ensures number == old(sequenceNumber) && sequenceNumber == number + 1
    {
      number := sequenceNumber;
      sequenceNumber := sequenceNumber + 1;
    }

    method PollForResponse(number: nat) returns (response: Option<Response>)
      ensures response == Lookup(View(), number)
      ensures number in responseMap ==> response == Some(responseMap[number])
      ensures number !in responseMap ==> response.None?
    {
      if number in responseMap {
        response := Some(responseMap[number]);
      } else {
        response := None;
      }
    }

    /** The body of the listener loop, for one decoded reply. */
    method FileResponse(number: nat, response: Response)
      modifies this`responseMap
      ensures View() == Record(old(View()), number, response)
      ensures responseMap == old(responseMap)[number := response]
    {
      responseMap := responseMap[number := response];
    }
  }
}
