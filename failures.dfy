/** The ways the label-reconciliation script stops. Each is an exception of
    the script; the comment names the statement that raises it. */
module Failures {

  datatype Failure =
      /** `l[1]` on an aligner line with fewer than two fields (IndexError). */
    | MalformedAlignmentLine
      /** `set_index("logid")` on an empty record list (KeyError). */
    | NoPhonesLines
      /** `spk, sent = utterance.split("_")` without exactly one `_` (ValueError). */
    | MalformedUtteranceId
      /** `sent_dict_complete[sent]` while printing the header (KeyError). */
    | MissingSentenceText
      /** Opening the utterance's reference label file (the file does not exist). */
    | MissingReferenceFile
      /** `l[5]` on a reference line with fewer than six fields (IndexError). */
    | MalformedReferenceLine
      /** The utterance has no aligner record ("Missing alignment"). */
    | MissingAlignment
      /** `trans_dict_clean_complete[sent]` for a sentence without variants (KeyError). */
    | MissingTranscription
      /** No variant of the observed length scores above zero ("does not match"). */
    | NoMatchingVariant
      /** Fewer labels than observed phones after the deletion pass. */
    | LabelsShorterThanObserved
      /** A filter helper indexes past the end of a column (IndexError). */
    | IndexOutOfRange
      /** `np.c_` on columns of different lengths (ValueError). */
    | ColumnLengthMismatch
}
