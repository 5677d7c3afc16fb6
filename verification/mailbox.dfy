/** `AppModel` (AirNote-VisionPro2/AppModel.swift): app-wide state holding
    two one-slot mailboxes, each overwritten by a send and emptied by its
    consumer. */
module Mailbox {
  import opened Basics

  datatype ImmersiveSpaceState = Closed | InTransition | Open

  /** What the add-card form sends; `size` exists only here, not on a card. */
  datatype AddCardRequestData = AddCardRequestData(
    english: string,
    japanese: string,
    partOfSpeech: string,
    memo: string,
    colorName: string,
    size: string)

  datatype FlipDirection = Front | Back

  datatype AppModel = AppModel(
    immersiveSpaceState: ImmersiveSpaceState,
    addCardRequest: Option<AddCardRequestData>,
    flipAllRequest: Option<FlipDirection>)

  /** A freshly created model: the space is closed and both slots are empty. */
  function Initial(): (m: AppModel)
    ensures m.immersiveSpaceState == Closed
    ensures m.addCardRequest.None? && m.flipAllRequest.None?
  {
    AppModel(Closed, None, None)
  }

  /** `requestAddCard`: the slot holds the new request, whatever it held. */
  function RequestAddCard(m: AppModel, data: AddCardRequestData): (r: AppModel)
    ensures r.addCardRequest == Some(data)
    ensures r.flipAllRequest == m.flipAllRequest && r.immersiveSpaceState == m.immersiveSpaceState
  {
    m.(addCardRequest := Some(data))
  }

  /** `didAddCard`: the consumer empties the add slot. */
  function DidAddCard(m: AppModel): (r: AppModel)
    ensures r.addCardRequest.None?
    ensures r.flipAllRequest == m.flipAllRequest && r.immersiveSpaceState == m.immersiveSpaceState
  {
    m.(addCardRequest := None)
  }

  /** `requestFlipAll`: true asks for the front, false for the back. */
  function RequestFlipAll(m: AppModel, toFront: bool): (r: AppModel)
    ensures r.flipAllRequest.Some?
    ensures r.flipAllRequest.value == Front <==> toFront
    ensures r.addCardRequest == m.addCardRequest && r.immersiveSpaceState == m.immersiveSpaceState
  {
    m.(flipAllRequest := Some(if toFront then Front else Back))
  }

  /** `didFlipAll`: the consumer empties the flip slot. */
  function DidFlipAll(m: AppModel): (r: AppModel)
    ensures r.flipAllRequest.None?
    ensures r.addCardRequest == m.addCardRequest && r.immersiveSpaceState == m.immersiveSpaceState
  {
    m.(flipAllRequest := None)
  }

  /** Two sends before a consume: only the second is seen, and consuming it
      leaves the slot as empty as consuming a single send would. */
  lemma AddRequestLastWriteWins(m: AppModel, first: AddCardRequestData, second: AddCardRequestData)
    ensures RequestAddCard(RequestAddCard(m, first), second) == RequestAddCard(m, second)
    ensures DidAddCard(RequestAddCard(RequestAddCard(m, first), second)) == DidAddCard(m)
  {
  }

  /** The two slots are independent: sends to them commute. */
  lemma SlotsIndependent(m: AppModel, data: AddCardRequestData, toFront: bool)
    ensures RequestFlipAll(RequestAddCard(m, data), toFront) == RequestAddCard(RequestFlipAll(m, toFront), data)
    ensures DidFlipAll(RequestAddCard(m, data)).addCardRequest == Some(data)
    ensures DidAddCard(RequestFlipAll(m, toFront)).flipAllRequest == RequestFlipAll(m, toFront).flipAllRequest
  {
  }
}
