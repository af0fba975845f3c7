/**
 * The runtime message the popup sends to the page overlay after a fresh
 * summary: `{ type: 'RCA_RENDER_SUMMARY', summary }`. A missing field is the
 * empty string, which the overlay treats as falsy.
 */
module Messaging {
  const RenderSummaryType := "RCA_RENDER_SUMMARY"

  datatype Message = Message(kind: string, summary: string)

  function RenderMessage(summary: string): (m: Message)
    ensures m.kind == RenderSummaryType && m.summary == summary
  {
    Message(RenderSummaryType, summary)
  }
}
