/** The parts of a DNS message the pipeline and the cache look at. */
module Dns {

  datatype Rcode = NoError | ServFail | OtherCode(code: nat)

  /** Address records carry their address as a number; zero is the unspecified address. */
  datatype RData = A(v4: nat) | AAAA(v6: nat) | OtherData

  datatype Record = Record(ttl: nat, data: RData)

  datatype Question = Question(name: string, qtype: nat)

  datatype Message = Message(id: nat, rcode: Rcode, questions: seq<Question>, answers: seq<Record>)
}
