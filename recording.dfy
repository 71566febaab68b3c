/** DataRecorder.cs: the log of the player's answers, kept in memory until it is saved. */
module Recording {

  /** One answer. The timestamp is the text the recorder is given for the moment of the answer. */
  datatype ResponseRecord = ResponseRecord(question: string, chosenAnswer: string, correct: bool, timestamp: string)

  class DataRecorder {
    var responses: seq<ResponseRecord>

    constructor ()
      ensures responses == []
    {
      responses := [];
    }

    /** Clear: the log becomes empty. */
    method Clear()
      modifies this
      ensures responses == []
    {
      responses := [];
    }

    /**
     * RecordResponse: append one record holding the arguments; the records already logged stay
     * as they were, in front of it.
     */
    method RecordResponse(question: string, chosen: string, correct: bool, timestamp: string)
      modifies this
      ensures |responses| == |old(responses)| + 1
      ensures responses[..|old(responses)|] == old(responses)
      ensures responses[|responses| - 1] == ResponseRecord(question, chosen, correct, timestamp)
    {
      responses := responses + [ResponseRecord(question, chosen, correct, timestamp)];
    }
  }
}
