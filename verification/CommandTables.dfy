/** The allowlist as the gateway publishes it, and that the router keeps to it: stated over
    the types of the messages themselves. */
module CommandTables {
  import opened Commands

  /** Forwarded as they are. */
  predicate PlainType(t: string) {
    || t == "ping" || t == "get_services" || t == "manifest/list"
    || t == "manifest/get" || t == "auth/current_user" || t == "supported_features"
    || t == "frontend/get_translations" || t == "frontend/get_version" || t == "frontend/get_user_data"
    || t == "frontend/set_user_data" || t == "frontend/subscribe_user_data" || t == "frontend/get_themes"
    || t == "frontend/get_icons" || t == "brands/access_token" || t == "recorder/info"
    || t == "lovelace/info" || t == "unsubscribe_events"
  }

  /** Forwarded always; their results or events are filtered where they name anything. */
  predicate FilteredType(t: string) {
    || t == "get_states" || t == "get_config"
    || t == "get_panels" || t == "lovelace/resources"
    || t == "lovelace/dashboards/list" || t == "frontend/subscribe_system_data"
    || t == "config/entity_registry/list" || t == "config/entity_registry/list_for_display"
    || t == "config/device_registry/list" || t == "config/area_registry/list"
  }

  /** Forwarded if what they ask for is within the policy. */
  predicate CheckedType(t: string) {
    || t == "subscribe_entities" || t == "subscribe_events"
    || t == "call_service" || t == "lovelace/config"
  }

  /** Forwarded if the policy grants token management. */
  predicate TokenType(t: string) {
    t == "auth/long_lived_access_token" || t == "auth/refresh_tokens"
  }

  predicate ForwardedType(t: string) {
    PlainType(t) || FilteredType(t) || CheckedType(t) || TokenType(t)
  }

  /** Never forwarded, but answered with a success. */
  predicate AnsweredType(t: string) {
    || t == "config/floor_registry/list" || t == "config/label_registry/list"
    || t == "repairs/list_issues"
    || t == "persistent_notification/subscribe" || t == "labs/subscribe"
  }

  /** The types listed as dangerous. */
  predicate ExplicitlyDenied(t: string) {
    || t == "render_template" || t == "execute_script"
    || t == "subscribe_trigger" || t == "fire_event"
    || t == "config/entity_registry/update" || t == "config/entity_registry/remove"
    || t == "config/device_registry/update" || t == "config/area_registry/create"
    || t == "config/area_registry/update" || t == "config/area_registry/delete"
    || t == "auth/delete_refresh_token" || t == "config/auth/list"
    || t == "config/auth/create" || t == "config/auth/update"
    || t == "config/auth/delete" || t == "config/auth_provider/homeassistant/create"
    || t == "history/history_during_period" || t == "history/stream"
    || t == "logbook/get_events" || t == "logbook/event_stream"
    || t == "camera/stream" || t == "media_source/browse_media"
  }

  lemma GetStatesExactly(t: string)
    ensures Classify(t).GetStates? <==> t == "get_states"
  {}

  lemma GetConfigExactly(t: string)
    ensures Classify(t).GetConfig? <==> t == "get_config"
  {}

  lemma GetPanelsExactly(t: string)
    ensures Classify(t).GetPanels? <==> t == "get_panels"
  {}

  lemma LovelaceResourcesExactly(t: string)
    ensures Classify(t).LovelaceResources? <==> t == "lovelace/resources"
  {}

  lemma LovelaceDashboardsExactly(t: string)
    ensures Classify(t).LovelaceDashboards? <==> t == "lovelace/dashboards/list"
  {}

  lemma SubscribeSystemDataExactly(t: string)
    ensures Classify(t).SubscribeSystemData? <==> t == "frontend/subscribe_system_data"
  {}

  lemma EntityListExactly(t: string)
    ensures Classify(t).EntityList? <==> t == "config/entity_registry/list"
  {}

  lemma EntityDisplayExactly(t: string)
    ensures Classify(t).EntityDisplay? <==> t == "config/entity_registry/list_for_display"
  {}

  lemma DeviceListExactly(t: string)
    ensures Classify(t).DeviceList? <==> t == "config/device_registry/list"
  {}

  lemma AreaListExactly(t: string)
    ensures Classify(t).AreaList? <==> t == "config/area_registry/list"
  {}

  lemma SubscribeEntitiesExactly(t: string)
    ensures Classify(t).SubscribeEntities? <==> t == "subscribe_entities"
  {}

  lemma SubscribeEventsExactly(t: string)
    ensures Classify(t).SubscribeEvents? <==> t == "subscribe_events"
  {}

  lemma CallServiceExactly(t: string)
    ensures Classify(t).CallService? <==> t == "call_service"
  {}

  lemma LovelaceConfigExactly(t: string)
    ensures Classify(t).LovelaceConfig? <==> t == "lovelace/config"
  {}

  lemma TokenMintExactly(t: string)
    ensures Classify(t).TokenMint? <==> t == "auth/long_lived_access_token"
  {}

  lemma TokenListExactly(t: string)
    ensures Classify(t).TokenList? <==> t == "auth/refresh_tokens"
  {}

  lemma SoftEmptyExactly(t: string)
    ensures Classify(t).SoftEmpty? <==> t == "repairs/list_issues"
  {}

  lemma EmptyRegistryExactly(t: string)
    ensures Classify(t).EmptyRegistry? <==> t == "config/floor_registry/list" || t == "config/label_registry/list"
  {}

  lemma SilentAckExactly(t: string)
    ensures Classify(t).SilentAck? <==> t == "persistent_notification/subscribe" || t == "labs/subscribe"
  {}

  lemma PlainExactly(t: string)
    ensures Classify(t).Plain? <==> PlainType(t)
  {}

  /** Everything that is in no table is denied by default. */
  lemma UnlistedExactly(t: string)
    ensures Classify(t).Unlisted? <==> !ForwardedType(t) && !AnsweredType(t)
  {}

  /** The length, first and last character of the types in the tables. */
  predicate TableEnds(n: int, a: char, z: char) {
    || (n == 4 && a == 'p' && z == 'g') || (n == 10 && a == 'g' && z == 'g') || (n == 10 && a == 'g' && z == 's')
    || (n == 12 && a == 'c' && z == 'e') || (n == 12 && a == 'g' && z == 's') || (n == 12 && a == 'm' && z == 't')
    || (n == 13 && a == 'l' && z == 'o') || (n == 13 && a == 'm' && z == 't') || (n == 13 && a == 'r' && z == 'o')
    || (n == 14 && a == 'l' && z == 'e') || (n == 15 && a == 'l' && z == 'g') || (n == 16 && a == 's' && z == 's')
    || (n == 17 && a == 'a' && z == 'r') || (n == 18 && a == 'f' && z == 's') || (n == 18 && a == 'l' && z == 's')
    || (n == 18 && a == 's' && z == 's') || (n == 18 && a == 'u' && z == 's') || (n == 19 && a == 'a' && z == 's')
    || (n == 19 && a == 'b' && z == 'n') || (n == 19 && a == 'f' && z == 's') || (n == 19 && a == 'r' && z == 's')
    || (n == 20 && a == 'f' && z == 'n') || (n == 22 && a == 'f' && z == 'a') || (n == 24 && a == 'l' && z == 't')
    || (n == 25 && a == 'c' && z == 't') || (n == 25 && a == 'f' && z == 's') || (n == 26 && a == 'c' && z == 't')
    || (n == 27 && a == 'c' && z == 't') || (n == 28 && a == 'a' && z == 'n') || (n == 28 && a == 'f' && z == 'a')
    || (n == 30 && a == 'f' && z == 'a') || (n == 33 && a == 'p' && z == 'e') || (n == 39 && a == 'c' && z == 'y')
  }

  lemma PlainEnds(t: string)
    requires PlainType(t)
    ensures t != "" && TableEnds(|t|, t[0], t[|t| - 1])
  {}

  lemma FilteredEnds(t: string)
    requires FilteredType(t) || TokenType(t)
    ensures t != "" && TableEnds(|t|, t[0], t[|t| - 1])
  {}

  lemma OtherEnds(t: string)
    requires CheckedType(t) || AnsweredType(t)
    ensures t != "" && TableEnds(|t|, t[0], t[|t| - 1])
  {}

  lemma DeniedEnds(t: string)
    requires ExplicitlyDenied(t) && t != "logbook/get_events"
    ensures t != "" && !TableEnds(|t|, t[0], t[|t| - 1])
  {}

  lemma LogbookIsUnlisted()
    ensures Classify("logbook/get_events").Unlisted?
  {}

  /** None of the types listed as dangerous is in a table. */
  lemma DeniedIsUnlisted(t: string)
    requires ExplicitlyDenied(t)
    ensures !ForwardedType(t) && !AnsweredType(t)
  {
    if t == "logbook/get_events" {
      LogbookIsUnlisted();
      UnlistedExactly("logbook/get_events");
    } else {
      DeniedEnds(t);
      if PlainType(t) { PlainEnds(t); }
      if FilteredType(t) || TokenType(t) { FilteredEnds(t); }
      if CheckedType(t) || AnsweredType(t) { OtherEnds(t); }
    }
  }

  /** The branch the router takes always gives the tables' answer. */
  lemma BranchesExactly(t: string)
    ensures PlainType(t) <==> Classify(t).Plain?
    ensures FilteredType(t) <==>
      || Classify(t).GetStates? || Classify(t).GetConfig? || Classify(t).GetPanels?
      || Classify(t).LovelaceResources? || Classify(t).LovelaceDashboards? || Classify(t).SubscribeSystemData?
      || Classify(t).EntityList? || Classify(t).EntityDisplay? || Classify(t).DeviceList? || Classify(t).AreaList?
    ensures TokenType(t) <==> Classify(t).TokenMint? || Classify(t).TokenList?
    ensures t == "subscribe_entities" <==> Classify(t).SubscribeEntities?
    ensures t == "subscribe_events" <==> Classify(t).SubscribeEvents?
    ensures t == "call_service" <==> Classify(t).CallService?
    ensures t == "lovelace/config" <==> Classify(t).LovelaceConfig?
    ensures t == "config/floor_registry/list" || t == "config/label_registry/list" <==> Classify(t).EmptyRegistry?
    ensures t == "repairs/list_issues" <==> Classify(t).SoftEmpty?
    ensures t == "persistent_notification/subscribe" || t == "labs/subscribe" <==> Classify(t).SilentAck?
  {
    PlainExactly(t);
    GetStatesExactly(t);
    GetConfigExactly(t);
    GetPanelsExactly(t);
    LovelaceResourcesExactly(t);
    LovelaceDashboardsExactly(t);
    SubscribeSystemDataExactly(t);
    EntityListExactly(t);
    EntityDisplayExactly(t);
    DeviceListExactly(t);
    AreaListExactly(t);
    TokenMintExactly(t);
    TokenListExactly(t);
    SubscribeEntitiesExactly(t);
    SubscribeEventsExactly(t);
    CallServiceExactly(t);
    LovelaceConfigExactly(t);
    EmptyRegistryExactly(t);
    SoftEmptyExactly(t);
    SilentAckExactly(t);
  }

  /** The tables as one: what is to be done about a message of this type. */
  datatype Kind =
    | PlainKind | FilteredKind | TokenKind | EntitiesKind | EventsKind | CallKind | DashboardKind
    | EmptyListKind | NoIssuesKind | AcknowledgedKind | DeniedKind

  function KindOf(t: string): Kind {
    if PlainType(t) then PlainKind
    else if FilteredType(t) then FilteredKind
    else if TokenType(t) then TokenKind
    else if t == "subscribe_entities" then EntitiesKind
    else if t == "subscribe_events" then EventsKind
    else if t == "call_service" then CallKind
    else if t == "lovelace/config" then DashboardKind
    else if t == "config/floor_registry/list" || t == "config/label_registry/list" then EmptyListKind
    else if t == "repairs/list_issues" then NoIssuesKind
    else if t == "persistent_notification/subscribe" || t == "labs/subscribe" then AcknowledgedKind
    else DeniedKind
  }

  /** The kind a branch of the router is for. */
  function KindFor(command: Command): Kind {
    match command
    case Plain => PlainKind
    case TokenMint | TokenList => TokenKind
    case SubscribeEntities => EntitiesKind
    case SubscribeEvents => EventsKind
    case CallService => CallKind
    case LovelaceConfig => DashboardKind
    case EmptyRegistry => EmptyListKind
    case SoftEmpty => NoIssuesKind
    case SilentAck => AcknowledgedKind
    case Unlisted => DeniedKind
    case _ => FilteredKind
  }

  lemma KindExactly(t: string)
    ensures KindFor(Classify(t)) == KindOf(t)
  {
    BranchesExactly(t);
  }

  predicate IsForwarded(kind: Kind) {
    !kind.EmptyListKind? && !kind.NoIssuesKind? && !kind.AcknowledgedKind? && !kind.DeniedKind?
  }

  lemma KindOfForwarded(t: string)
    ensures ForwardedType(t) <==> IsForwarded(KindOf(t))
  {}

  lemma KindOfOthers(t: string)
    ensures !ForwardedType(t) && !AnsweredType(t) ==> KindOf(t).DeniedKind?
  {}
}
