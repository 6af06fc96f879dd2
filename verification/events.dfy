/**
 The fixed taxonomy of event types the inspector labels traffic with, and
 the wire names the browser UI keys its rendering on.
 */
module Events {

  datatype EventType =
    | MetaRequest
    | ModelRoutingRequest
    | ToolResultRequest
    | InitMetadataRequest
    | ModelUsageRequest
    | ChatRequest
    | UnknownRequest
    | AuthTokenResponse
    | ModelRoutingResponse
    | UserProfileResponse
    | IdentityResponse
    | ConfigResponse
    | ModelUsageResponse
    | ChatResponseToolCall
    | ChatResponseText
    | ChatResponseEmpty
    | ErrorResponse
    | MetaResponse
    | UnknownResponse
    | RawTextResponse
  {
    /** The `type` string an event carries on the wire. */
    function WireName(): string {
      match this
      case MetaRequest => "meta_request"
      case ModelRoutingRequest => "model_routing_request"
      case ToolResultRequest => "tool_result_request"
      case InitMetadataRequest => "init_metadata_request"
      case ModelUsageRequest => "model_usage_request"
      case ChatRequest => "chat_request"
      case UnknownRequest => "unknown_request"
      case AuthTokenResponse => "auth_token_response"
      case ModelRoutingResponse => "model_routing_response"
      case UserProfileResponse => "user_profile_response"
      case IdentityResponse => "identity_response"
      case ConfigResponse => "config_response"
      case ModelUsageResponse => "model_usage_response"
      case ChatResponseToolCall => "chat_response_tool_call"
      case ChatResponseText => "chat_response_text"
      case ChatResponseEmpty => "chat_response_empty"
      case ErrorResponse => "error_response"
      case MetaResponse => "meta_response"
      case UnknownResponse => "unknown_response"
      case RawTextResponse => "response"
    }

    /** The types `classifyRequest` can produce. */
    predicate IsRequestType() {
      this in {MetaRequest, ModelRoutingRequest, ToolResultRequest, InitMetadataRequest,
               ModelUsageRequest, ChatRequest, UnknownRequest}
    }

    /** The types `classifyResponse` can produce. */
    predicate IsResponseType() {
      this in {AuthTokenResponse, ModelRoutingResponse, UserProfileResponse, IdentityResponse,
               ConfigResponse, ModelUsageResponse, ChatResponseToolCall, ChatResponseText,
               ChatResponseEmpty, ErrorResponse, MetaResponse, UnknownResponse}
    }
  }

  /** A label and its human-readable summary. */
  datatype Verdict = Verdict(kind: EventType, summary: string)
}
