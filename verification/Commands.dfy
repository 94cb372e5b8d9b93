/** The allowlist: every command and event type the gateway understands. */
module Commands {
  import opened JsonValues

  /** Commands forwarded verbatim. */
  predicate ForwardPlain(t: string) {
    || t == "ping" || t == "get_services"
    || t == "manifest/list" || t == "manifest/get"
    || t == "auth/current_user" || t == "supported_features"
    || t == "frontend/get_translations" || t == "frontend/get_version"
    || t == "frontend/get_user_data" || t == "frontend/set_user_data"
    || t == "frontend/subscribe_user_data" || t == "frontend/get_themes"
    || t == "frontend/get_icons" || t == "brands/access_token"
    || t == "recorder/info" || t == "lovelace/info"
    || t == "unsubscribe_events"
  }

  /** Subscriptions acknowledged but never relayed. */
  predicate SilentlyAcked(t: string) {
    || t == "persistent_notification/subscribe" || t == "labs/subscribe"
  }

  /** Registry-change topics accepted without relaying anything. */
  predicate SyntheticEvent(t: string) {
    || t == "entity_registry_updated" || t == "device_registry_updated"
    || t == "area_registry_updated" || t == "floor_registry_updated"
    || t == "label_registry_updated" || t == "category_registry_updated"
    || t == "component_loaded" || t == "service_registered"
    || t == "service_removed" || t == "repairs_issue_registry_updated"
  }

  /** Topics that only tell the UI to refetch. */
  predicate SafeEvent(t: string) {
    || t == "lovelace_updated" || t == "panels_updated"
    || t == "themes_updated" || t == "core_config_updated"
  }

  /** What the router does with a command type. */
  datatype Command =
    | Plain | LovelaceResources
    | GetStates | GetConfig | GetPanels | LovelaceDashboards
    | EntityList | EntityDisplay | DeviceList | AreaList
    | SubscribeEntities | SubscribeEvents | SubscribeSystemData
    | CallService | LovelaceConfig
    | TokenMint | TokenList
    | EmptyRegistry | SoftEmpty | SilentAck
    | Unlisted

  /** Commands with a branch of their own in the router. */
  predicate HasBranch(t: string) {
    || t == "get_states" || t == "get_config"
    || t == "subscribe_entities" || t == "subscribe_events"
    || t == "call_service" || t == "get_panels"
    || t == "lovelace/config" || t == "lovelace/resources"
    || t == "lovelace/dashboards/list" || t == "frontend/subscribe_system_data"
    || t == "config/entity_registry/list" || t == "config/entity_registry/list_for_display"
    || t == "config/device_registry/list" || t == "config/area_registry/list"
    || t == "config/floor_registry/list" || t == "config/label_registry/list"
    || t == "repairs/list_issues" || t == "auth/refresh_tokens"
    || t == "auth/long_lived_access_token"
    || SilentlyAcked(t)
  }

  /** The router's chain of branches, in its order. */
  function Classify(mtype: string): Command {
    if ForwardPlain(mtype) then Plain
    else if HasBranch(mtype) then ClassifyByBranch(mtype)
    else Unlisted  // everything unknown is denied by default
  }

  function ClassifyByBranch(mtype: string): Command
    requires HasBranch(mtype)
  {
    if mtype == "get_states" then GetStates
    else if mtype == "get_config" then GetConfig
    else if mtype == "subscribe_entities" then SubscribeEntities
    else if mtype == "subscribe_events" then SubscribeEvents
    else if mtype == "call_service" then CallService
    else if mtype == "get_panels" then GetPanels
    else if mtype == "lovelace/config" then LovelaceConfig
    else if mtype == "lovelace/resources" then LovelaceResources
    else if mtype == "lovelace/dashboards/list" then LovelaceDashboards
    else if mtype == "frontend/subscribe_system_data" then SubscribeSystemData
    else if mtype == "config/entity_registry/list" then EntityList
    else if mtype == "config/entity_registry/list_for_display" then EntityDisplay
    else if mtype == "config/device_registry/list" then DeviceList
    else if mtype == "config/area_registry/list" then AreaList
    else if mtype == "config/floor_registry/list" || mtype == "config/label_registry/list" then EmptyRegistry
    else if mtype == "repairs/list_issues" then SoftEmpty
    else if mtype == "auth/refresh_tokens" then TokenList
    else if mtype == "auth/long_lived_access_token" then TokenMint
    else SilentAck
  }

  datatype Topic = StateChangedTopic | SafeTopic | SyntheticTopic | OtherTopic

  function TopicOf(eventType: Json): Topic {
    if eventType == JStr("state_changed") then StateChangedTopic
    else if eventType.JStr? && SafeEvent(eventType.s) then SafeTopic
    else if eventType.JStr? && SyntheticEvent(eventType.s) then SyntheticTopic
    else OtherTopic
  }

  /** `f"{domain}.{service}" in SILENT_OK_SERVICES` */
  predicate SilentService(domain: string, service: string) {
    domain + "." + service == "system_log.write"
  }
}
